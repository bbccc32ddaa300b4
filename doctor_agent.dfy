/**
 * The symptom-chat screen (Frontend/src/aiAgent/DoctorAgent.jsx): the messages and chats it
 * keeps, how a service answer becomes a message, how a message is shown, the sidebar preview,
 * and the chat store whose handlers update `chats`, `currentChat`, `isLoading` and `error`.
 *
 * A send awaits the service between two state updates; it is modelled as two steps over an
 * explicit snapshot (`Pending`), so that whatever happens in between is overwritten as in the
 * source. `Date.now()` ids are a `freshId` parameter; `localStorage` is a parameter of the
 * constructor.
 */
module DoctorAgent {

  import opened Wrappers
  import opened Text
  import opened Patterns
  import opened BubbleRewrite
  import SessionList

  const ApiBase := "http://localhost:5001"
  const AgentName := "Doctor AI " + "\U{1FA7A}"

  /** The greeting every new chat starts with. */
  const Welcome := "Welcome! I'm your " + "non-diagnostic " + AgentName + ". Please describe your "
    + "symptoms (e.g., \"Sharp " + "headache behind my eyes " + "and fever of 101F\")."

  const SeedTitle := "New Symptom Check"

  const NetworkError := "Network Error: Could not " + "connect to the backend " + "server at " + ApiBase
    + ". Please ensure the " + "Flask app is running."

  // ---------------------------------------------------------------- data

  datatype Status = Success | Failure

  /** A chat message; `status` is set only on the agent's answers to a send. */
  datatype Message = Message(content: string, isAgent: bool, isMarkdown: bool, status: Option<Status>)

  datatype Chat = Chat(id: int, title: string, messages: seq<Message>)

  function ChatId(c: Chat): int {
    c.id
  }

  const WelcomeMessage := Message(Welcome, true, true, None)

  /** A chat as `createNewChat` (and the storage default) builds it. */
  function SeedChat(id: int): (c: Chat)
    ensures c.id == id && c.title == SeedTitle && c.messages == [WelcomeMessage]
    ensures |c.messages| == 1 && c.messages[0].isAgent && c.messages[0].isMarkdown
  {
    Chat(id, SeedTitle, [WelcomeMessage])
  }

  /** `loadChats`: the stored list when there is one, else one seeded chat with id 1. */
  function LoadChats(saved: Option<seq<Chat>>): (r: seq<Chat>)
    ensures saved.Some? ==> r == saved.value
    ensures saved.None? ==> r == [SeedChat(1)]
  {
    match saved
    case Some(xs) => xs
    case None => [SeedChat(1)]
  }

  // ---------------------------------------------------------------- service answers

  /** A JSON body from the service: a success with its markdown, or anything else. */
  datatype ReplyBody = SuccessBody(markdown: string) | OtherBody(message: Option<string>)

  /** What `fetch` + `response.json()` produce: a body, or a throw (no connection, not JSON). */
  datatype Reply = Body(body: ReplyBody) | NoReply

  /** `fetchAnalysis` after the await: every answer becomes an agent message. */
  function Normalise(reply: Reply): (m: Message)
    ensures m.isAgent && m.status.Some?
    ensures m.isMarkdown <==> reply.Body? && reply.body.SuccessBody?
    ensures m.status == Some(Success) <==> m.isMarkdown
    ensures m.isMarkdown ==> m.content == reply.body.markdown
    ensures reply.NoReply? ==> m.content == NetworkError
  {
    match reply
    case Body(SuccessBody(md)) => Message(md, true, true, Some(Success))
    case Body(OtherBody(msg)) => Message("Error: " + msg.GetOr("undefined"), true, false, Some(Failure))
    case NoReply => Message(NetworkError, true, false, Some(Failure))
  }

  // ---------------------------------------------------------------- showing a message

  /** What a bubble puts on screen: HTML from the rewrite chain, or the text as it is. */
  datatype Shown = RichHtml(html: string) | PlainText(text: string)

  /**
   * `ChatBubble`: agent markdown goes through the rewrite chain; the markdown flag alone
   * decides between HTML and text, and text is always the original content.
   */
  function Render(m: Message): (r: Shown)
    ensures r.RichHtml? <==> m.isMarkdown
    ensures r.PlainText? ==> r.text == m.content
    ensures !m.isAgent ==> r == RichHtml(m.content) || r == PlainText(m.content)
  {
    var content := if m.isAgent && m.isMarkdown then Pipeline(m.content) else m.content;
    if m.isMarkdown then RichHtml(content) else PlainText(m.content)
  }

  function UserMessage(text: string): Message {
    Message(text, false, false, None)
  }

  /** A message the user sent is shown exactly as typed. */
  lemma UserMessagePlain(text: string)
    ensures Render(UserMessage(text)) == PlainText(text)
  {
  }

  /** Both kinds of failure are shown as plain text, never rewritten. */
  lemma FailurePlain(reply: Reply)
    requires Normalise(reply).status == Some(Failure)
    ensures Render(Normalise(reply)) == PlainText(Normalise(reply).content)
    ensures reply.Body? ==> "Error: " <= Normalise(reply).content
  {
  }

  /** A successful answer is the only one the rewrite chain sees. */
  lemma SuccessRewritten(markdown: string)
    ensures Render(Normalise(Body(SuccessBody(markdown)))) == RichHtml(Pipeline(markdown))
  {
  }

  // ---------------------------------------------------------------- the greeting is inert

  predicate QuietChar(c: char) {
    c != '*' && c != '#' && c != 'Y' && c != 'M' && c != 'C' && c != '<'
  }

  /** No character that starts a rewrite rule or a tag. */
  predicate Quiet(s: string) {
    forall i :: 0 <= i < |s| ==> QuietChar(s[i])
  }

  lemma QuietConcat(a: string, b: string)
    requires Quiet(a) && Quiet(b)
    ensures Quiet(a + b)
  {
    forall i | 0 <= i < |a + b| ensures QuietChar((a + b)[i]) {
      if i >= |a| { assert (a + b)[i] == b[i - |a|]; }
    }
  }

  lemma WelcomeQuiet()
    ensures Quiet(Welcome)
  {
    var p1, p2 := "Welcome! I'm your ", "non-diagnostic ";
    var p5, p6, p7, p8 := ". Please describe your ", "symptoms (e.g., \"Sharp ", "headache behind my eyes ", "and fever of 101F\").";
    GreetingHeadQuiet();
    GreetingTailQuiet();
    QuietConcat(p1 + p2 + AgentName, p5);
    QuietConcat(p1 + p2 + AgentName + p5, p6);
    QuietConcat(p1 + p2 + AgentName + p5 + p6, p7);
    QuietConcat(p1 + p2 + AgentName + p5 + p6 + p7, p8);
  }

  lemma GreetingHeadQuiet()
    ensures Quiet("Welcome! I'm your " + "non-diagnostic " + AgentName)
  {
    var p1, p2, p3, p4 := "Welcome! I'm your ", "non-diagnostic ", "Doctor AI ", "\U{1FA7A}";
    assert Quiet(p1);
    assert Quiet(p2);
    assert Quiet(p3);
    assert Quiet(p4);
    QuietConcat(p1, p2);
    QuietConcat(p3, p4);
    QuietConcat(p1 + p2, p3 + p4);
    assert p1 + p2 + AgentName == p1 + p2 + (p3 + p4);
  }

  lemma GreetingTailQuiet()
    ensures Quiet(". Please describe your ") && Quiet("symptoms (e.g., \"Sharp ")
    ensures Quiet("headache behind my eyes ") && Quiet("and fever of 101F\").")
  {
    assert Quiet(". Please describe your ");
    assert Quiet("symptoms (e.g., \"Sharp ");
    assert Quiet("headache behind my eyes ");
    assert Quiet("and fever of 101F\").");
  }

  /** The greeting is marked as markdown, and the rewrite chain leaves it exactly as it is. */
  lemma WelcomeVerbatim()
    ensures Render(WelcomeMessage) == RichHtml(Welcome)
  {
    WelcomeQuiet();
    assert forall i :: 0 <= i < |Welcome| ==> QuietChar(Welcome[i]);
    PipelineUnchangedWithout(Welcome);
  }

  // ---------------------------------------------------------------- sidebar preview

  /** `s.replace(/<[^>]*>/g, '')`. */
  function StripTags(s: string): string {
    ReplaceAll(TagSpan, s, Const(""))
  }

  /** A tag match needs a closing `>` somewhere after its opening `<`. */
  lemma TagNeedsClose(t: string)
    ensures MatchLen(TagSpan, t).Some? ==> t != [] && t[0] == '<' && '>' in t[1..]
  {
    if MatchLen(TagSpan, t).Some? {
      var n := MatchLen(TagSpan, t).value;
      assert t[1..][n - 2] == '>';
    }
  }

  /** Removing tags only drops characters: the result is no longer, and brings in nothing new. */
  lemma {:induction false} StripTagsFrom(s: string)
    ensures |StripTags(s)| <= |s|
    ensures forall c :: c in StripTags(s) ==> c in s
  {
    if s != [] {
      match MatchLen(TagSpan, s)
      case Some(n) =>
        StripTagsFrom(s[n..]);
        assert StripTags(s) == Const("")(s) + StripTags(s[n..]);
        assert forall c :: c in s[n..] ==> c in s;
      case None =>
        StripTagsFrom(s[1..]);
        assert StripTags(s) == [s[0]] + StripTags(s[1..]);
        assert forall c :: c in s[1..] ==> c in s;
    }
  }

  /** No tag is left after the strip: an unmatched `<` has no `>` anywhere after it. */
  lemma {:induction false} StripTagsTagFree(s: string)
    ensures NoMatch(TagSpan, StripTags(s))
  {
    if s != [] {
      match MatchLen(TagSpan, s)
      case Some(n) =>
        StripTagsTagFree(s[n..]);
        assert StripTags(s) == Const("")(s) + StripTags(s[n..]);
      case None =>
        var r := StripTags(s[1..]);
        var out := [s[0]] + r;
        StripTagsTagFree(s[1..]);
        assert StripTags(s) == out;
        forall i | 0 <= i < |out| ensures MatchLen(TagSpan, out[i..]).None? {
          if i > 0 {
            assert out[i..] == r[i - 1..];
          } else {
            TagNeedsClose(out);
            if s[0] == '<' {
              assert forall j :: 1 <= j < |s| ==> s[j] != '>';
              assert '>' !in s[1..];
              StripTagsFrom(s[1..]);
              assert out[1..] == r;
            }
          }
        }
    }
  }

  /** Stripping tags twice is stripping them once. */
  lemma StripTagsIdempotent(s: string)
    ensures StripTags(StripTags(s)) == StripTags(s)
  {
    StripTagsTagFree(s);
    ReplaceAllNoMatch(TagSpan, StripTags(s), Const(""));
  }

  /** Text without `<` has no tag to strip. */
  lemma StripTagsNoTag(s: string)
    requires '<' !in s
    ensures StripTags(s) == s
  {
    NoLeadNoMatch(TagSpan, s);
    ReplaceAllNoMatch(TagSpan, s, Const(""));
  }

  /**
   * The history item's second line: the last message without tags, cut to 37 characters, then
   * "..." (always appended); a chat with no messages has none.
   */
  function Preview(c: Chat): (r: Option<string>)
    ensures r.Some? <==> c.messages != []
    ensures r.Some? ==> 3 <= |r.value| <= 40 && r.value[|r.value| - 3..] == "..."
    ensures r.Some? && 3 <= |r.value| ==> r.value[..|r.value| - 3] <= StripTags(c.messages[|c.messages| - 1].content)
    ensures r.Some? ==> var plain := StripTags(c.messages[|c.messages| - 1].content);
      |r.value| == 3 + (if |plain| < 37 then |plain| else 37)
  {
    if c.messages == [] then None
    else
      StripTagsFrom(c.messages[|c.messages| - 1].content);
      var p := Prefix(StripTags(c.messages[|c.messages| - 1].content), 37);
      assert (p + "...")[..|p|] == p;
      Some(p + "...")
  }

  /** Only the last message counts: a new message replaces the preview by its own. */
  lemma PreviewOfLast(c: Chat, m: Message)
    ensures Preview(c.(messages := c.messages + [m])) == Some(Prefix(StripTags(m.content), 37) + "...")
  {
    var d := c.(messages := c.messages + [m]);
    assert d.messages[|d.messages| - 1] == m;
  }

  /** The preview already shows tag-free text: stripping the last message first changes nothing. */
  lemma PreviewOfStripped(c: Chat)
    requires c.messages != []
    ensures var k := |c.messages| - 1;
      Preview(c.(messages := c.messages[k := c.messages[k].(content := StripTags(c.messages[k].content))])) == Preview(c)
  {
    StripTagsIdempotent(c.messages[|c.messages| - 1].content);
  }

  /** A fresh chat previews the first 37 characters of the greeting. */
  lemma SeedPreview(id: int)
    ensures Preview(SeedChat(id)) == Some(Welcome[..37] + "...")
  {
    WelcomeQuiet();
    assert forall i :: 0 <= i < |Welcome| ==> QuietChar(Welcome[i]);
    StripTagsNoTag(Welcome);
  }

  // ---------------------------------------------------------------- sending

  /** The chat title taken from the first symptoms: 30 characters and "..." when longer. */
  function TitleFor(symptoms: string): (r: string)
    ensures |symptoms| <= 30 ==> r == symptoms
    ensures |symptoms| > 30 ==> |r| == 33 && r[..30] == symptoms[..30] && r[30..] == "..."
  {
    if |symptoms| > 30 then symptoms[..30] + "..." else symptoms
  }

  /** What `sendMessage` captures before its await. */
  datatype Pending = Pending(chats: seq<Chat>, chat: Chat, userChat: Chat, symptoms: string)

  /** The user's message appended to a chat. */
  function WithUser(c: Chat, symptoms: string): (r: Chat)
    ensures r.id == c.id && r.title == c.title && r.messages == c.messages + [UserMessage(symptoms)]
  {
    c.(messages := c.messages + [UserMessage(symptoms)])
  }

  /**
   * The chat after the answer: the user's message, then the agent's; the title is derived from
   * the symptoms only when the chat had no message at all before the send.
   */
  function Answered(p: Pending, reply: Reply): (r: Chat)
    requires p.userChat == WithUser(p.chat, p.symptoms)
    ensures r.id == p.chat.id
    ensures r.messages == p.chat.messages + [UserMessage(p.symptoms), Normalise(reply)]
    ensures r.title == if p.chat.messages == [] then TitleFor(p.symptoms) else p.chat.title
  {
    var full := p.userChat.(messages := p.userChat.messages + [Normalise(reply)]);
    if p.chat.messages == [] then full.(title := TitleFor(p.symptoms)) else full
  }

  /**
   * A chat that already has a message keeps its title through a send, and still has messages
   * after it, so no later send renames it either.
   */
  lemma SeededNeverRetitled(p: Pending, reply: Reply)
    requires p.userChat == WithUser(p.chat, p.symptoms) && p.chat.messages != []
    ensures Answered(p, reply).title == p.chat.title && Answered(p, reply).messages != []
  {
  }

  /** Every chat of the list has at least one message. */
  predicate Started(xs: seq<Chat>) {
    forall i :: 0 <= i < |xs| ==> xs[i].messages != []
  }

  /**
   * Lists the handlers build keep every chat started: the default list, a new chat in front, a
   * delete (which can only add a seeded chat) and the list a finished send writes.
   */
  lemma {:induction false} StartedKept(xs: seq<Chat>, cur: Chat, id: int, freshId: int, p: Pending, reply: Reply)
    requires Started(xs)
    ensures Started(LoadChats(None))
    ensures Started([SeedChat(freshId)] + xs)
    ensures Started(SessionList.DeleteStep(xs, cur, ChatId, id, SeedChat(freshId)).0)
    ensures PendingOk(p) && Started(p.chats) ==> Started(AfterSend(p, reply))
  {
    var ys := [SeedChat(freshId)] + xs;
    forall i | 0 <= i < |ys| ensures ys[i].messages != [] {
      if i > 0 { assert ys[i] == xs[i - 1]; }
    }
    var rest := SessionList.Without(xs, ChatId, id);
    forall i | 0 <= i < |rest| ensures rest[i].messages != [] {
      assert rest[i] in xs;
    }
    if PendingOk(p) && Started(p.chats) {
      var r := AfterSend(p, reply);
      forall i | 0 <= i < |r| ensures r[i].messages != [] {
        if p.chats[i].id == p.chat.id {
          SessionList.FindMember(p.chats, ChatId, p.chat);
          assert r[i] == Answered(p, reply) || r[i] == p.chats[i];
        }
      }
    }
  }

  /** The snapshot a send works from is consistent. */
  predicate PendingOk(p: Pending) {
    && SessionList.Valid(p.chats, p.chat, ChatId)
    && p.symptoms != []
    && p.userChat == WithUser(p.chat, p.symptoms)
  }

  /**
   * The store's invariant: the current chat is in the list under a unique id, and a send is in
   * flight exactly while the spinner shows, its snapshot consistent.
   */
  predicate StoreValid(chats: seq<Chat>, current: Chat, isLoading: bool, pending: Option<Pending>) {
    && SessionList.Valid(chats, current, ChatId)
    && (isLoading <==> pending.Some?)
    && (pending.Some? ==> PendingOk(pending.value))
  }

  /** The state a send starts from keeps the list and the snapshot consistent. */
  lemma SendStartValid(chats: seq<Chat>, current: Chat, symptoms: string)
    requires SessionList.Valid(chats, current, ChatId) && symptoms != []
    ensures var userChat := WithUser(current, symptoms);
      StoreValid(SessionList.ReplaceKey(chats, ChatId, current.id, userChat), userChat, true,
                    Some(Pending(chats, current, userChat, symptoms)))
  {
    SessionList.ReplaceKeyValid(chats, ChatId, current, WithUser(current, symptoms));
  }

  /** The list a finished send writes: the snapshot with the answered chat in place. */
  function AfterSend(p: Pending, reply: Reply): (r: seq<Chat>)
    requires PendingOk(p)
    ensures SessionList.Valid(r, Answered(p, reply), ChatId)
    ensures |r| == |p.chats|
    ensures forall i :: 0 <= i < |r| ==> r[i].id == p.chats[i].id
    ensures forall i :: 0 <= i < |r| && p.chats[i].id != p.chat.id ==> r[i] == p.chats[i]
  {
    var a := Answered(p, reply);
    SessionList.ReplaceKeyValid(p.chats, ChatId, p.chat, a);
    SessionList.ReplaceKey(p.chats, ChatId, p.chat.id, a)
  }

  // ---------------------------------------------------------------- the store

  class ChatStore {
    var chats: seq<Chat>
    var current: Chat
    var draft: string
    var isLoading: bool
    var error: Option<string>
    var sidebarOpen: bool
    var pending: Option<Pending>

    /** Never an empty list, ids distinct, the current chat listed; loading exactly while a send waits. */
    predicate Valid()
      reads this
    {
      StoreValid(chats, current, isLoading, pending)
    }

    /** Initial state from storage; an empty stored list would leave no current chat. */
    constructor (saved: Option<seq<Chat>>)
      requires saved.Some? ==> saved.value != [] && SessionList.UniqueKeys(saved.value, ChatId)
      ensures Valid()
      ensures chats == LoadChats(saved) && current == chats[0]
      ensures draft == [] && !isLoading && error == None && !sidebarOpen && pending == None
    {
      chats := LoadChats(saved);
      current := LoadChats(saved)[0];
      draft := [];
      isLoading := false;
      error := None;
      sidebarOpen := false;
      pending := None;
    }

    /** The input box's `onChange`. */
    method Type(text: string)
      requires Valid()
      modifies this`draft
      ensures Valid() && draft == text
    {
      draft := text;
    }

    /** `createNewChat`: a seeded chat goes in front and becomes current. */
    method CreateNewChat(freshId: int)
      requires Valid() && SessionList.Fresh(chats, ChatId, freshId)
      modifies this`chats, this`current, this`sidebarOpen
      ensures Valid()
      ensures chats == [SeedChat(freshId)] + old(chats) && current == SeedChat(freshId)
      ensures !sidebarOpen
    {
      SessionList.PrependFresh(chats, ChatId, SeedChat(freshId));
      chats := [SeedChat(freshId)] + chats;
      current := SeedChat(freshId);
      sidebarOpen := false;
    }

    /** `handleDeleteChat`, as written (see `SessionList.DeleteStep`). */
    method DeleteChat(id: int, freshId: int)
      requires Valid()
      requires SessionList.Without(chats, ChatId, id) == [] ==> SessionList.Fresh(chats, ChatId, freshId)
      modifies this`chats, this`current, this`sidebarOpen
      ensures Valid()
      ensures (chats, current) == SessionList.DeleteStep(old(chats), old(current), ChatId, id, SeedChat(freshId))
      ensures sidebarOpen == (old(sidebarOpen) && SessionList.Without(old(chats), ChatId, id) != [])
    {
      SessionList.DeleteStepValid(chats, current, ChatId, id, SeedChat(freshId));
      var rest := SessionList.Without(chats, ChatId, id);
      if rest == [] {
        CreateNewChat(freshId);
      } else {
        if current.id == id {
          current := rest[0];
        }
        chats := rest;
      }
    }

    /** `handleChatSelection`: a chat from the sidebar list becomes current. */
    method SelectChat(c: Chat)
      requires Valid() && c in chats
      modifies this`current, this`sidebarOpen
      ensures Valid() && current == c && !sidebarOpen
    {
      current := c;
      sidebarOpen := false;
    }

    /** The effect on `chats`: re-point to the chat with the current id, else the head. */
    method SyncCurrent()
      requires Valid()
      modifies this`current
      ensures Valid() && current == old(current)
    {
      SessionList.ResyncedIsCurrent(chats, current, ChatId);
      current := SessionList.Resynced(chats, current, ChatId);
    }

    /**
     * `sendMessage` up to its await: nothing happens for blank input or while a send waits;
     * otherwise the trimmed text is appended to the current chat and the snapshot is kept.
     */
    method BeginSend() returns (started: bool)
      requires Valid()
      modifies this
      ensures Valid()
      ensures started <==> Trim(old(draft)) != [] && !old(isLoading)
      ensures !started ==> (chats == old(chats) && current == old(current) && draft == old(draft)
        && isLoading == old(isLoading) && error == old(error) && pending == old(pending))
      ensures started ==> pending == Some(Pending(old(chats), old(current), WithUser(old(current), Trim(old(draft))), Trim(old(draft))))
      ensures started ==> (current == WithUser(old(current), Trim(old(draft)))
        && chats == SessionList.ReplaceKey(old(chats), ChatId, old(current).id, current))
      ensures started ==> draft == [] && error == None && isLoading
      ensures sidebarOpen == old(sidebarOpen)
    {
      var symptoms := Trim(draft);
      if symptoms == [] || isLoading {
        return false;
      }
      Start(symptoms);
      started := true;
    }

    /** The state change of a send that goes ahead with the trimmed text `symptoms`. */
    method Start(symptoms: string)
      requires Valid() && symptoms != [] && !isLoading
      modifies this
      ensures Valid()
      ensures pending == Some(Pending(old(chats), old(current), WithUser(old(current), symptoms), symptoms))
      ensures current == WithUser(old(current), symptoms)
      ensures chats == SessionList.ReplaceKey(old(chats), ChatId, old(current).id, current)
      ensures draft == [] && error == None && isLoading && sidebarOpen == old(sidebarOpen)
    {
      var userChat := WithUser(current, symptoms);
      var p := Pending(chats, current, userChat, symptoms);
      var next := SessionList.ReplaceKey(chats, ChatId, current.id, userChat);
      SendStartValid(chats, current, symptoms);
      chats, current, draft, error, isLoading, pending := next, userChat, [], None, true, Some(p);
    }

    /**
     * `sendMessage` after its await: the snapshot taken before the await, with the answered
     * chat in place, replaces the list, whatever changed meanwhile; a failure sets the banner.
     */
    method FinishSend(reply: Reply)
      requires Valid() && pending.Some?
      modifies this
      ensures Valid()
      ensures chats == AfterSend(old(pending).value, reply) && current == Answered(old(pending).value, reply)
      ensures error == if Normalise(reply).status == Some(Failure) then Some(Normalise(reply).content) else old(error)
      ensures !isLoading && pending == None
      ensures draft == old(draft) && sidebarOpen == old(sidebarOpen)
    {
      var p := pending.value;
      var agent := Normalise(reply);
      chats := AfterSend(p, reply);
      current := Answered(p, reply);
      if agent.status == Some(Failure) {
        error := Some(agent.content);
      }
      isLoading := false;
      pending := None;
    }
  }

  /** The default list satisfies the store's invariant. */
  lemma DefaultListValid()
    ensures SessionList.Valid(LoadChats(None), LoadChats(None)[0], ChatId)
  {
  }
}
