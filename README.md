# Medical assistant screens and symptom service — a Dafny model

The system is a web front end with three assistant screens and a Flask service behind them.

- **Doctor AI (symptom chat).** The user describes symptoms. The service asks an AI agent for a structured analysis and serialises it as markdown. The chat bubble rewrites that markdown into styled HTML through a chain of six regular-expression replacements and a final strip.
- **Report Analyst and Prescription Analyst.** The user uploads a file. The answer is stored in the current "report" of a sidebar list and displayed: the patient profile and lab results, or the medication list.

The model covers:

- the chat screen's session store, as the class `DoctorAgent.ChatStore`. It holds chats, the current chat, the draft, the loading flag and the error banner. Its handlers are create, delete, select, the re-sync effect, and a send split in two at its await.
- the answer normaliser (`fetchAnalysis`), the bubble's render decision, the sidebar preview and `loadChats`.
- the rewrite chain rule by rule (`BubbleRewrite`). It rests on a small model of JavaScript `String.prototype.replace` with and without the `g` flag (`Patterns`). Each regular expression is a matcher at a text position, with its greedy, lazy and backtracking behaviour written out.
- the store shared by both document screens, as the generic class `ReportSessions.ReportStore`. Each screen has its own answer judgement (`Classify`) and its own display (`View`).
- the service's `format_symptom_analysis_to_markdown`, `generate_error_response` and the `/doctor_assistant` validation and error ladder (`SymptomApi`).
- the service's markdown read back line by line, field by field (`MarkdownRead`).
- lemmas that follow a route reply through to the screen (`EndToEnd`).

What the lemmas show about the source as written:

- Rule 1 replaces the disclaimer's bold span by the alert block.
- Rule 1 hands the alert to `replace` as a replacement string, so a disclaimer reading `$&` or `$'` is not shown as written.
- Rule 2 turns each `## n.` heading into a header block.
- The specialist-card rule (rule 5) can never fire on the service's markdown, because rule 2 has already removed its `## 4.` heading.
- The closing `***` line and call-to-action sentence become one button, at the start of a text or after any text in which the sentence does not occur. This is not carried through rules 3 and 4 on the service's markdown.
- Deleting the only session does not remove it.
- The title derived from the first symptoms never applies to a chat created in the app, because such a chat always starts with the greeting.

## Model

| member | source | states |
|---|---|---|
| DoctorAgent.LoadChats | Frontend/src/aiAgent/DoctorAgent.jsx:13-27 | the stored list is returned as it is; without one, the list is a single seeded chat with id 1 |
| DoctorAgent.SeedChat | Frontend/src/aiAgent/DoctorAgent.jsx:290-298 | a new chat has the given id, the title "New Symptom Check", and exactly one message: the agent's greeting, marked as markdown |
| DoctorAgent.DefaultListValid | Frontend/src/aiAgent/DoctorAgent.jsx:18-26 | the default list is non-empty, its ids are distinct, and its head (the initial current chat) is in it |
| DoctorAgent.Normalise | Frontend/src/aiAgent/DoctorAgent.jsx:208-242 | every answer becomes an agent message with a status; it is markdown exactly when the body says success, and then it carries the markdown; success status holds exactly for markdown; a failed connection gives the fixed network error text |
| DoctorAgent.Render | Frontend/src/aiAgent/DoctorAgent.jsx:150-176 | the markdown flag alone chooses HTML over text; text is always the original content; a user's message is never rewritten |
| DoctorAgent.UserMessagePlain | Frontend/src/aiAgent/DoctorAgent.jsx:251 | a message the user sent is shown as plain text, exactly as typed |
| DoctorAgent.FailurePlain | Frontend/src/aiAgent/DoctorAgent.jsx:225-240 | both kinds of failure show as plain text, never through the rewrite chain; a service failure starts with "Error: " |
| DoctorAgent.SuccessRewritten | Frontend/src/aiAgent/DoctorAgent.jsx:218-224 | a successful answer is shown as the rewrite chain's output on its markdown |
| DoctorAgent.WelcomeVerbatim | Frontend/src/aiAgent/DoctorAgent.jsx:77-147 | the greeting is rendered as HTML and passes through all seven rewrite steps unchanged |
| DoctorAgent.StripTagsFrom | Frontend/src/aiAgent/DoctorAgent.jsx:46 | removing tags never lengthens the text and brings in no character that was not there |
| DoctorAgent.StripTagsTagFree | Frontend/src/aiAgent/DoctorAgent.jsx:46 | after the global tag removal no `<…>` match is left anywhere |
| DoctorAgent.StripTagsIdempotent | Frontend/src/aiAgent/DoctorAgent.jsx:46 | removing tags twice gives the same text as removing them once |
| DoctorAgent.StripTagsNoTag | Frontend/src/aiAgent/DoctorAgent.jsx:46 | text without `<` is left unchanged |
| DoctorAgent.Preview | Frontend/src/aiAgent/DoctorAgent.jsx:44-47 | a preview exists exactly when the chat has messages; it is the first min(37, length) characters of the last message's tag-free text, always followed by "..." |
| DoctorAgent.PreviewOfLast | Frontend/src/aiAgent/DoctorAgent.jsx:44-47 | after a message is appended, the preview is that message's tag-free text cut at 37 characters, then "..." |
| DoctorAgent.PreviewOfStripped | Frontend/src/aiAgent/DoctorAgent.jsx:46 | stripping the tags of the last message beforehand does not change the preview |
| DoctorAgent.SeedPreview | Frontend/src/aiAgent/DoctorAgent.jsx:44-47 | a fresh chat previews the greeting's first 37 characters and "..." |
| DoctorAgent.TitleFor | Frontend/src/aiAgent/DoctorAgent.jsx:276 | symptoms of up to 30 characters are the title as they are; longer ones are cut to their first 30 characters followed by "..." |
| DoctorAgent.WithUser | Frontend/src/aiAgent/DoctorAgent.jsx:251-257 | the chat keeps its id and title, and gains exactly the user's plain message at the end |
| DoctorAgent.Answered | Frontend/src/aiAgent/DoctorAgent.jsx:267-278 | the answered chat keeps its id; its messages are the old ones, the user's message, then the normalised answer; it is retitled only if it had no message before the send |
| DoctorAgent.SeededNeverRetitled | Frontend/src/aiAgent/DoctorAgent.jsx:267-278 | a send to a chat that already has a message keeps its title, and the answered chat has messages |
| DoctorAgent.StartedKept | Frontend/src/aiAgent/DoctorAgent.jsx:18-26 | every chat has a message in the default list, after a new chat goes in front, after a delete and after a send finishes, so no chat the app builds is ever retitled |
| DoctorAgent.SendStartValid | Frontend/src/aiAgent/DoctorAgent.jsx:254-260 | the snapshot a send takes is consistent, and the list with the user's message in place keeps distinct ids and holds the new current chat |
| DoctorAgent.AfterSend | Frontend/src/aiAgent/DoctorAgent.jsx:272 | the final list is the snapshot with the answered chat in place: same length, same ids, every other chat unchanged, ids distinct, answered chat listed |
| DoctorAgent.ChatStore.constructor | Frontend/src/aiAgent/DoctorAgent.jsx:187-192 | the store starts from the loaded list with its head current, an empty draft, not loading, no error and the sidebar closed |
| DoctorAgent.ChatStore.Type | Frontend/src/aiAgent/DoctorAgent.jsx:490 | typing replaces the draft and nothing else |
| DoctorAgent.ChatStore.CreateNewChat | Frontend/src/aiAgent/DoctorAgent.jsx:290-302 | a seeded chat with the fresh id goes in front of the list and becomes current; the sidebar closes; the invariant is kept |
| DoctorAgent.ChatStore.DeleteChat | Frontend/src/aiAgent/DoctorAgent.jsx:305-316 | the new list and current chat are the as-written delete step (see the SessionList rows); the invariant is kept |
| DoctorAgent.ChatStore.SelectChat | Frontend/src/aiAgent/DoctorAgent.jsx:318-321 | the chosen listed chat becomes current and the sidebar closes |
| DoctorAgent.ChatStore.SyncCurrent | Frontend/src/aiAgent/DoctorAgent.jsx:201-206 | while the invariant holds, the re-sync effect leaves the current chat exactly as it was |
| DoctorAgent.ChatStore.BeginSend | Frontend/src/aiAgent/DoctorAgent.jsx:244-261 | a send starts exactly when the trimmed draft is non-empty and no send waits; then the trimmed text is appended to the current chat in place, the draft and error are cleared, loading starts and the snapshot is kept; otherwise nothing changes |
| DoctorAgent.ChatStore.FinishSend | Frontend/src/aiAgent/DoctorAgent.jsx:264-287 | the list becomes the snapshot with the answered chat in place, overwriting anything done during the wait; that chat is current; a failure sets the banner to its text; loading ends |
| SessionList.Without | Frontend/src/aiAgent/DoctorAgent.jsx:306 | the filter keeps exactly the sessions with another id; when no session has the id, the list is unchanged |
| SessionList.WithoutInOrder | Frontend/src/aiAgent/DoctorAgent.jsx:306 | the filter is a subsequence of the list: the sessions it keeps stay in their order |
| SessionList.WithoutHead | Frontend/src/aiAgent/DoctorAgent.jsx:306-312 | the head of the filtered list, which the delete handler makes current, is the first session of the old list with another id |
| SessionList.ReplaceKey | Frontend/src/aiAgent/DoctorAgent.jsx:259 | the map keeps the length; each session with the id becomes the replacement and every other stays |
| SessionList.Find | Frontend/src/aiAgent/DoctorAgent.jsx:202 | a found session is listed and has the id; nothing is found only when no session has it |
| SessionList.WithoutUnique | Frontend/src/aiAgent/DoctorAgent.jsx:306 | filtering keeps ids distinct |
| SessionList.ReplaceKeyValid | Frontend/src/aiAgent/DoctorAgent.jsx:259-260 | replacing the current session by one with the same id keeps ids distinct and lists the new one |
| SessionList.FindMember | Frontend/src/aiAgent/DoctorAgent.jsx:202 | with distinct ids, looking up a listed session's id finds that very session |
| SessionList.ResyncedIsCurrent | Frontend/src/aiAgent/DoctorAgent.jsx:201-206 | the re-sync picks the current session itself, never the head fallback, while the invariant holds |
| SessionList.PrependFresh | Frontend/src/aiAgent/DoctorAgent.jsx:299 | a session with a fresh id put in front keeps ids distinct |
| SessionList.DeleteStepValid | Frontend/src/aiAgent/DoctorAgent.jsx:305-316 | deleting keeps the list non-empty, ids distinct and the current session listed; the new id only needs to be fresh when nothing is left |
| SessionList.DeleteStepRemoves | Frontend/src/aiAgent/DoctorAgent.jsx:305-316 | when something is left, no session with the deleted id remains; the current session stays unless it was deleted, and then the first session of the old list with another id becomes current |
| SessionList.DeleteOnlyKeepsIt | Frontend/src/aiAgent/DoctorAgent.jsx:308-309 | deleting the only session prepends a new one to the unfiltered list, so the deleted one is still listed |
| Text.TrimStart | Frontend/src/aiAgent/DoctorAgent.jsx:245 | the result is a suffix, what was dropped is all whitespace, and the result does not start with whitespace |
| Text.TrimEnd | Frontend/src/aiAgent/DoctorAgent.jsx:245 | the result is a prefix, what was dropped is all whitespace, and the result does not end with whitespace |
| Text.TrimPadded | Frontend/src/aiAgent/DoctorAgent.jsx:245 | trimming whitespace-padded text gives back exactly the core |
| Text.Prefix | Frontend/src/aiAgent/ReportReaderAgent.jsx:100 | `substring(0, n)` is a prefix of length n, or the whole text when it is shorter |
| Text.OrElse | Frontend/src/aiAgent/ReportReaderAgent.jsx:228 | `a \|\| b` gives a present non-empty string, and otherwise the fallback |
| Patterns.FirstFrom | Frontend/src/aiAgent/DoctorAgent.jsx:80 | the result is the leftmost index from the start position at which the pattern matches; none means no match anywhere after it |
| Patterns.ReplaceFirstNoMatch | Frontend/src/aiAgent/DoctorAgent.jsx:104-107 | a replace without `g` on text the pattern never matches changes nothing |
| Patterns.ReplaceAllNoMatch | Frontend/src/aiAgent/DoctorAgent.jsx:94-100 | a global replace on text the pattern never matches changes nothing |
| Patterns.ReplaceFirstSkip | Frontend/src/aiAgent/DoctorAgent.jsx:104-107 | text before the first match position is copied unchanged |
| Patterns.ReplaceAllSkip | Frontend/src/aiAgent/DoctorAgent.jsx:94-100 | a global replace copies unchanged a prefix where no match starts |
| Patterns.ReplaceFirstAtFirst | Frontend/src/aiAgent/DoctorAgent.jsx:104-107 | a replace without `g` rewrites exactly the leftmost match and keeps both sides of it |
| Patterns.ReplaceFirstString | Frontend/src/aiAgent/DoctorAgent.jsx:88 | a replace by a string puts the string, its `$` patterns expanded against the text before, at and after the match, in place of the leftmost match |
| Patterns.ExpandPlain | Frontend/src/aiAgent/DoctorAgent.jsx:88 | a replacement string without `$` is inserted as it is |
| Patterns.ExpandPlainPrefix | Frontend/src/aiAgent/DoctorAgent.jsx:88 | a `$`-free start of a replacement string is copied before the expansion of the rest |
| Patterns.ExpandAppend | Frontend/src/aiAgent/DoctorAgent.jsx:88 | two replacement strings expand piece by piece when the second does not start with a pattern letter |
| Patterns.ExpandPatterns | Frontend/src/aiAgent/DoctorAgent.jsx:88 | `$&` expands to the matched text and `$'` to the text after the match |
| Patterns.ReplaceAllLone | Frontend/src/aiAgent/DoctorAgent.jsx:110-116 | a global replace of a text whose first character occurs nowhere else rewrites that one occurrence and keeps both sides |
| Patterns.ReplaceFirstLone | Frontend/src/aiAgent/DoctorAgent.jsx:147 | a single replace of a text whose first character does not occur before it rewrites that occurrence and keeps both sides |
| Patterns.ReplaceFirstConst | Frontend/src/aiAgent/DoctorAgent.jsx:137-147 | a constant replacement puts the string in place of the leftmost match |
| Patterns.ReplaceAllAtStart | Frontend/src/aiAgent/DoctorAgent.jsx:94-100 | a global replace rewrites a match at the start, then resumes after it |
| Patterns.ReplaceAllKeepsOut | Frontend/src/aiAgent/DoctorAgent.jsx:110-116 | a global replace whose replacement never adds a character cannot bring it into the text |
| Patterns.ReplaceFirstKeepsOut | Frontend/src/aiAgent/DoctorAgent.jsx:104-107 | the same for a replace without `g` |
| BubbleRewrite.Rule1Splice | Frontend/src/aiAgent/DoctorAgent.jsx:80-88 | rule 1 replaces the first bold span's text at its own position, since no earlier copy of that text exists, by the alert markup around the span without its markers; only that inner text has its `$` patterns expanded, against the text before the span, the span and the text after it |
| BubbleRewrite.StripBoldSpan | Frontend/src/aiAgent/DoctorAgent.jsx:85 | removing `**` from a bold span whose body has no `*` leaves the body |
| BubbleRewrite.BoldAtFront | Frontend/src/aiAgent/DoctorAgent.jsx:80 | the lazy bold pattern matches a one-line, star-free `**body**` exactly up to its closing marker |
| BubbleRewrite.Rule1Disclaimer | Frontend/src/aiAgent/DoctorAgent.jsx:80-88 | with no `*` before it, a one-line bold span becomes the alert block around its body, the body's `$` patterns expanded; all text around it is unchanged |
| BubbleRewrite.Rule1PlainDisclaimer | Frontend/src/aiAgent/DoctorAgent.jsx:80-88 | a one-line bold span whose body has no `*` or `$` becomes the alert block holding exactly that body |
| BubbleRewrite.Rule1WholeSpan | Frontend/src/aiAgent/DoctorAgent.jsx:80-88 | a disclaimer reading `$&` shows the whole bold span, markers included, inside the alert |
| BubbleRewrite.Rule1AfterSpan | Frontend/src/aiAgent/DoctorAgent.jsx:80-88 | a disclaimer reading `$'` shows, inside the alert, all the text after the span |
| BubbleRewrite.ExpandAlert | Frontend/src/aiAgent/DoctorAgent.jsx:81-88 | the alert's own markup holds no `$`, so only the disclaimer text inside it is expanded |
| BubbleRewrite.AlertReplacerIsString | Frontend/src/aiAgent/DoctorAgent.jsx:81-88 | the replacer rule 1 is modelled with gives, at every position, what `replace` makes of the whole alert block as one replacement string |
| BubbleRewrite.OrdinalOf | Frontend/src/aiAgent/DoctorAgent.jsx:98 | the header's first group, with `##` removed and trimmed, is the number followed by a dot |
| BubbleRewrite.HashesRemoved | Frontend/src/aiAgent/DoctorAgent.jsx:98 | the global `##` removal on the first group leaves the spaces, the digits and the dot |
| BubbleRewrite.HeaderSpanOf | Frontend/src/aiAgent/DoctorAgent.jsx:95 | on a `## n. title` line, the second group is exactly the title, ending at the line break |
| BubbleRewrite.HeaderRewriteOf | Frontend/src/aiAgent/DoctorAgent.jsx:97-99 | the replacer makes a header block from the number and the title |
| BubbleRewrite.Rule2Header | Frontend/src/aiAgent/DoctorAgent.jsx:94-100 | a numbered heading line becomes its header block, and the global replace resumes after it |
| BubbleRewrite.Rule2Skip | Frontend/src/aiAgent/DoctorAgent.jsx:94-100 | text without `#` passes rule 2 unchanged |
| BubbleRewrite.ImageInsideHeader | Frontend/src/aiAgent/DoctorAgent.jsx:110-116 | once rule 2 has made a header block of "Possible Medical Problems", rule 4 puts the image text inside that header, between the title and the closing tag |
| BubbleRewrite.FindingLenOf | Frontend/src/aiAgent/DoctorAgent.jsx:105 | the greedy capture of rule 3 runs to the last dot on the line |
| BubbleRewrite.Rule3AtFront | Frontend/src/aiAgent/DoctorAgent.jsx:104-107 | the lead-in sentence is replaced by the highlighted condition and its dot; the lead-in phrase itself is dropped |
| BubbleRewrite.Rule3Finding | Frontend/src/aiAgent/DoctorAgent.jsx:104-107 | with no `Y` before the sentence, only the sentence is rewritten and the rest is kept |
| BubbleRewrite.Rule3Skip | Frontend/src/aiAgent/DoctorAgent.jsx:104-107 | text before the first `Y` passes rule 3 unchanged |
| BubbleRewrite.CardSpanOf | Frontend/src/aiAgent/DoctorAgent.jsx:120 | on the raw specialist section, the third group is exactly the specialist's name, up to the blank line |
| BubbleRewrite.Rule5AtFront | Frontend/src/aiAgent/DoctorAgent.jsx:119-134 | the raw specialist section becomes the card with the badge and the name |
| BubbleRewrite.Rule5Card | Frontend/src/aiAgent/DoctorAgent.jsx:119-134 | with no `#` before it, only the raw specialist section is rewritten |
| BubbleRewrite.Rule5Skip | Frontend/src/aiAgent/DoctorAgent.jsx:119-134 | text without `#` passes rule 5 unchanged |
| BubbleRewrite.ActionAt | Frontend/src/aiAgent/DoctorAgent.jsx:138 | after optional stars and whitespace, the sentence match ends right after the sentence |
| BubbleRewrite.Rule6AtFront | Frontend/src/aiAgent/DoctorAgent.jsx:137-146 | the call-to-action sentence, with an optional `***` and any whitespace before it, becomes the button block |
| BubbleRewrite.Rule6After | Frontend/src/aiAgent/DoctorAgent.jsx:137-146 | after a text in which no call to action starts, the match becomes the button block and the text before it is kept |
| BubbleRewrite.Rule6AfterRule | Frontend/src/aiAgent/DoctorAgent.jsx:137-146 | `***`, whitespace and the sentence after any text without the sentence become the button block; whitespace ending that text is not taken into the match |
| BubbleRewrite.NoActionBeforeRule | Frontend/src/aiAgent/DoctorAgent.jsx:138 | no call to action starts in a text without the sentence that is followed by `***` |
| BubbleRewrite.StripFirstOnly | Frontend/src/aiAgent/DoctorAgent.jsx:147 | the final strip removes only the first `***` |
| BubbleRewrite.PipelineUnchanged | Frontend/src/aiAgent/DoctorAgent.jsx:80-147 | text on which no pattern of the chain matches anywhere is left as it is |
| BubbleRewrite.PipelineUnchangedWithout | Frontend/src/aiAgent/DoctorAgent.jsx:80-147 | text with none of `*`, `#`, `Y`, `M`, `C` is left as it is |
| ReportSessions.Blank | Frontend/src/aiAgent/ReportReaderAgent.jsx:59 | a new report has the id and title, and no file and no data |
| ReportSessions.UploadTitle | Frontend/src/aiAgent/ReportReaderAgent.jsx:100 | the title is "Analysis: ", then the first 25 characters of the file name (the whole name when shorter), then "..." |
| ReportSessions.Uploaded | Frontend/src/aiAgent/ReportReaderAgent.jsx:98-103 | the uploaded report keeps its id and gets the file's title, the file name and the answer |
| ReportSessions.AfterUpload | Frontend/src/aiAgent/ReportReaderAgent.jsx:105 | the list after an upload is the snapshot with the uploaded report in place: same ids, every other report unchanged, ids distinct, the uploaded report listed |
| ReportSessions.ReportStore.constructor | Frontend/src/aiAgent/ReportReaderAgent.jsx:48-55 | one blank report with id 1 and the shared initial title, current and not loading |
| ReportSessions.ReportStore.CreateNewReport | Frontend/src/aiAgent/ReportReaderAgent.jsx:58-63 | a blank report with the fresh id and the screen's title goes in front and becomes current; the sidebar closes |
| ReportSessions.ReportStore.DeleteReport | Frontend/src/aiAgent/ReportReaderAgent.jsx:65-72 | the new list and current report are the as-written delete step; the invariant is kept |
| ReportSessions.ReportStore.SelectReport | Frontend/src/aiAgent/ReportReaderAgent.jsx:74-77 | the chosen listed report becomes current and the sidebar closes |
| ReportSessions.ReportStore.BeginUpload | Frontend/src/aiAgent/ReportReaderAgent.jsx:79-82 | loading starts exactly when a file was chosen, with the list and the current report kept as the snapshot |
| ReportSessions.ReportStore.FinishUpload | Frontend/src/aiAgent/ReportReaderAgent.jsx:94-113 | an accepted answer goes into the snapshot's current report, in the snapshot's list, and becomes current; a refused one changes no report and its alerts are returned; loading ends either way |
| ReportReader.NewStore | Frontend/src/aiAgent/ReportReaderAgent.jsx:48-59 | the report screen starts with one blank report, and new reports are titled "New Report" |
| ReportReader.Classify | Frontend/src/aiAgent/ReportReaderAgent.jsx:87-109 | an answer is accepted exactly when the response is OK; a refusal is one alert with the body's error or the fixed text; a throw shows its own message |
| ReportReader.ErrorStatusStored | Frontend/src/aiAgent/ReportReaderAgent.jsx:94-96 | an OK answer whose body says `status: "error"` is still stored |
| ReportReader.ResultLines | Frontend/src/aiAgent/ReportReaderAgent.jsx:239-243 | one line per lab result, in order |
| ReportReader.Rows | Frontend/src/aiAgent/ReportReaderAgent.jsx:237-243 | no rows when the diagnostic or its results are absent; otherwise one line per result, in order, each showing item, value, unit and the flag or "Normal" |
| ReportReader.FlagDefault | Frontend/src/aiAgent/ReportReaderAgent.jsx:241 | an unflagged result ends in "Normal", a flagged one in its flag |
| ReportReader.View | Frontend/src/aiAgent/ReportReaderAgent.jsx:215-246 | the upload prompt shows exactly when no data is stored; otherwise the age defaults to "N/A" and the rows are the results |
| ReportReader.UploadedShowsData | Frontend/src/aiAgent/ReportReaderAgent.jsx:98-103 | after a successful upload the panel shows the data, with one row per result |
| PrescriptionReader.NewStore | Frontend/src/aiAgent/PrescriptionReaderAgent.jsx:120-136 | the prescription screen starts with one blank report, and new reports are titled "New Analysis" |
| PrescriptionReader.Classify | Frontend/src/aiAgent/PrescriptionReaderAgent.jsx:161-191 | an answer is accepted exactly when the response is OK and its status is not "error"; a refused answer shows its message, else its error, else the fixed text, then the connection alert; a throw shows only the connection alert |
| PrescriptionReader.ErrorStatusRefused | Frontend/src/aiAgent/PrescriptionReaderAgent.jsx:170 | an OK answer saying `status: "error"` is refused with two alerts |
| PrescriptionReader.DetailsFor | Frontend/src/aiAgent/PrescriptionReaderAgent.jsx:60 | a medicine's details are its analysis entry if it has one, else the whole default record |
| PrescriptionReader.Rows | Frontend/src/aiAgent/PrescriptionReaderAgent.jsx:53-61 | one row per extracted medicine, in order |
| PrescriptionReader.Show | Frontend/src/aiAgent/PrescriptionReaderAgent.jsx:43-107 | the "incomplete" note shows exactly when the data, the extraction or the analysis is missing; otherwise there is one row per medicine with its name and details, the heading counts the rows, the "none extracted" note shows exactly for no rows and the placeholder exactly for some; a medicine without a form shows "Form Unknown" |
| PrescriptionReader.View | Frontend/src/aiAgent/PrescriptionReaderAgent.jsx:294-303 | the upload prompt shows exactly when no data is stored; otherwise the data display |
| PrescriptionReader.NoFieldDefaults | Frontend/src/aiAgent/PrescriptionReaderAgent.jsx:60 | a row's details are the analysis entry or the whole default, never a mixture |
| PrescriptionReader.MissingAnalysisIncomplete | Frontend/src/aiAgent/PrescriptionReaderAgent.jsx:44-50 | an accepted answer without an analysis is stored but shows only the "incomplete" note |
| SymptomApi.Bullets | Backend/app.py:60 | one `- item` line per item, in order |
| SymptomApi.SplitJoin | Backend/app.py:60 | lines joined with line breaks split back into the same lines when none holds a break |
| SymptomApi.ListBlockRoundTrip | Backend/app.py:59-66 | a non-empty list of one-line items can be read back from its section, one bullet per item |
| SymptomApi.EmptyListPlaceholder | Backend/app.py:59-66 | a missing list and an empty list both give the placeholder line |
| SymptomApi.FormatMarkdown | Backend/app.py:52-72 | the markdown opens with the bold disclaimer (or its default) and the first heading, and ends with the separator and the final statement (or "N/A"); MarkdownRead.MarkdownFields places every other field |
| MarkdownRead.MarkdownSplit | Backend/app.py:52-72 | read back line by line, the markdown is exactly the disclaimer line, the headings, the condition, the bullet or placeholder lines of both lists, the specialist line, `***` and the final statement, when no field holds a line break |
| MarkdownRead.MarkdownFields | Backend/app.py:52-72 | every field sits on a known line of the markdown: the disclaimer first, the condition fourth, the problem lines from the seventh, the action lines after the third heading, the specialist four lines from the end, the final statement last |
| MarkdownRead.ListLinesSplit | Backend/app.py:59-66 | a list section splits into its bullet lines, or the placeholder line, and none of them holds a break |
| MarkdownRead.SplitAppend | Backend/app.py:52-72 | splitting a text extended at its end changes only its last line |
| SymptomApi.SplitNone | Backend/app.py:60 | a text without a line break is one line |
| SymptomApi.AllDefaults | Backend/app.py:52-72 | an analysis with no keys renders every default text |
| SymptomApi.ErrorResponse | Backend/app.py:45-49 | the error reply carries the message and the code, 400 unless another is given |
| SymptomApi.ValidSymptoms | Backend/app.py:223-229 | symptoms pass exactly when the body is a JSON object whose `symptoms` value is a non-empty string |
| SymptomApi.Route | Backend/app.py:220-259 | a missing field gives one 400 and a bad value the other; a missing agent gives 500; an agent that raises gives 500 with its message, unparsable output 500 with the JSON message, an error key 500 with that error, and otherwise 200 with the symptoms, the analysis and its markdown; a success is exactly a 200 |
| SymptomApi.ErrorCodes | Backend/app.py:220-259 | every refusal is 400 or 500, and 400 exactly when validation fails |
| SymptomApi.ValidationFirst | Backend/app.py:223-232 | a bad request gets the same answer whatever state the agent is in |
| SymptomApi.NonStringRefused | Backend/app.py:228-229 | a non-string value is refused with the non-empty-string message, whether truthy or not |
| EndToEnd.DisclaimerBecomesAlert | Frontend/src/aiAgent/DoctorAgent.jsx:80-88 | on the service's markdown, rule 1 turns exactly the disclaimer into the alert block |
| EndToEnd.HeadingsBecomeBlocks | Frontend/src/aiAgent/DoctorAgent.jsx:94-100 | after rule 1, rule 2 turns the service's four headings into header blocks, and nothing else |
| EndToEnd.HeadedClean | Backend/app.py:55-68 | after rule 2 no `#` remains in the service's markdown |
| EndToEnd.SpecialistSectionShape | Backend/app.py:68-69 | the service writes its specialist section in the shape rule 5 rewrites into a card |
| EndToEnd.SpecialistCardNeverFires | Frontend/src/aiAgent/DoctorAgent.jsx:119-134 | in the chain, rule 5 never changes the service's markdown, because rule 2 has already consumed the `## 4.` heading |
| EndToEnd.ClosingBecomesButton | Backend/app.py:71 | the separator and the closing call-to-action sentence become exactly the button block under rule 6 |
| EndToEnd.ClosingAfterText | Backend/app.py:71 | after any text in which the sentence does not occur, the separator and the closing sentence become the button block and the text is kept |
| EndToEnd.ToReply | Frontend/src/aiAgent/DoctorAgent.jsx:216-232 | the screen reads an error reply's message and a success's markdown, and always gets a body |
| EndToEnd.RouteReplyShown | Backend/app.py:220-259 | every route reply reaches the screen: a success as the chain's HTML of the serialised analysis, an error as plain "Error: " and its message |
| EndToEnd.SentNeverBadRequest | Frontend/src/aiAgent/DoctorAgent.jsx:245-246 | the non-empty text the screen sends never draws a 400 |

## Left out

- HTML, SVG and Tailwind markup: each template of the rewrite chain is a short stand-in constant. It keeps the source's line breaks and the text later rules look for. Rendering and styling are not modelled.
- `$` patterns in replacement strings: rule 1's string replacement expands `$$`, `$&`, `` $` `` and `$'` (`Patterns.Expand`). Numbered groups such as `$1` are not, since a plain-string pattern has no groups. The other rules' replacements are functions or constants without `$`, except the specialist badge's `$1`, expanded by hand since its group is always the label itself.
- `localStorage` and JSON parsing: the saved chats are a constructor parameter. Saving them is a side effect with no state of its own. A corrupt saved value, on which `JSON.parse` throws, is not modelled.
- DoctorAgent.ChatStore.constructor: requires a saved list to be non-empty with distinct ids. An empty saved list leaves the source with no current chat, a crash the model does not follow.
- `Date.now()` ids: a `freshId` parameter that must differ from every listed id.
- Interleaving during the awaits: a send or upload is two steps over an explicit snapshot. Events between them are other method calls, and the second step overwrites their effect as the source does. The re-sync effect is `SyncCurrent`, called at any time.
- The scroll effect, the sidebar toggles other than the handlers' own, navigation, the camera button, `console` output and clearing the file input.
- Alerts are returned as strings instead of being shown.
- JSON values: only strings and absent keys. A numeric age or lab value, `null` field values, a `null` or missing `analysis_markdown` on a success, and a missing `patient_profile`, `structured_medical_data` or `structured_medical_data.content` (each of which throws in the source) are not modelled.
- The route's request body is a JSON object or not JSON. A JSON array or string body, and parsed agent output that is not an object (where `"error" in` tests a substring or an element), are not modelled. An agent `error` key is a present string or absent; a key `error` with a `null` value, which the source counts as present, is not represented.
- The Gemini agents, `markdown.markdown`, file handling and the other routes: the symptom agent is the `analyze` parameter of `SymptomApi.Route`, and the agent's existence is `agentReady`.
- BubbleRewrite.Rule5AtFront: the lazy, dot-all specialist pattern is modelled in full by `Patterns.CardSpan`, but its outcome is proved only for the section shape the service writes.
- EndToEnd.DisclaimerBecomesAlert: proved only for analyses whose texts contain no `#` and whose disclaimer is one line without `*` or `$` (the `Tidy` predicate). That is a restriction the lemmas need; the agent is not held to it.
- EndToEnd.HeadingsBecomeBlocks: proved only for analyses whose texts contain no `#` and whose disclaimer is one line without `*` or `$` (the `Tidy` predicate). That is a restriction the lemmas need; the agent is not held to it.
- EndToEnd.HeadedClean: proved only for analyses whose texts contain no `#` and whose disclaimer is one line without `*` or `$` (the `Tidy` predicate). That is a restriction the lemmas need; the agent is not held to it.
- EndToEnd.SpecialistCardNeverFires: proved only for analyses whose texts contain no `#` and whose disclaimer is one line without `*` or `$` (the `Tidy` predicate). That is a restriction the lemmas need; the agent is not held to it.
- EndToEnd.DisclaimerBecomesAlert: a disclaimer that spans lines is no bold span for rule 1, which then turns the next single-line bold span, `**Specialist:**`, into the alert. This follows from the pattern but is not proved.
- BubbleRewrite.Rule1PlainDisclaimer: states the exact alert only for a disclaimer without `$`; with `$` the alert holds the expansion that BubbleRewrite.Rule1Disclaimer states.
- DoctorAgent.TitleFor: lengths and cuts count code points, not UTF-16 code units as JavaScript does. An astral character such as an emoji moves the cut, and JavaScript may split its surrogate pair.
- DoctorAgent.Preview: counts code points, not UTF-16 code units. In JavaScript, each astral character before the cut (an emoji, or the agent name's U+1FA7A) makes the 37-unit cut end one character earlier, and the cut may split a surrogate pair. The greeting's U+1FA7A lies past the cut, so DoctorAgent.SeedPreview agrees with the source.
- ReportSessions.UploadTitle: counts code points, not UTF-16 code units, when cutting the file name at 25.
- Text.Prefix: `substring` counts code points here, not UTF-16 code units, and never splits a surrogate pair.
- MarkdownRead.MarkdownSplit: proved only for analyses none of whose texts or list items holds a line break (the `LineFree` predicate). A multi-line field splits into more lines, and the fields no longer sit on fixed lines.
- MarkdownRead.MarkdownFields: proved under the same `LineFree` restriction as MarkdownRead.MarkdownSplit.
- EndToEnd.ClosingBecomesButton: proved for the closing sentence the agent is told to write. Other closing statements are not followed through rule 6.
- EndToEnd.ClosingAfterText: rule 6 is proved on the closing lines at the start of a text (BubbleRewrite.Rule6AtFront) and after a text without the sentence. It is not proved on the text rules 1 to 5 leave of the service's markdown, because that would need rules 3 and 4 shown to keep the closing lines and to bring in no copy of the sentence.
