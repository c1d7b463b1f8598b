/**
 * The chat widget: a keyword classifier that picks one of six canned reply
 * pools, and the transcript that a send and a delayed reply extend.
 */
module Chat {
  import opened Text

  // ---------------------------------------------------------------------------
  // Classification

  datatype Category = Sad | Anxious | Happy | Tired | Angry | Default

  /** Position of a category in the order the source tests them; `Default` comes last. */
  function Rank(c: Category): nat {
    match c
    case Sad => 0
    case Anxious => 1
    case Happy => 2
    case Tired => 3
    case Angry => 4
    case Default => 5
  }

  /** The keyword group of each category; `Default` has none. */
  function Keywords(c: Category): seq<string> {
    match c
    case Sad => ["sad", "depressed", "down", "lonely"]
    case Anxious => ["anxious", "worried", "stressed", "overwhelmed"]
    case Happy => ["happy", "good", "great", "excited"]
    case Tired => ["tired", "exhausted", "drained", "sleep"]
    case Angry => ["angry", "mad", "frustrated", "annoyed"]
    case Default => []
  }

  /** Reference meaning of "the category's group matches": some keyword occurs in the text. */
  ghost predicate GroupOccurs(m: string, c: Category) {
    exists k :: k in Keywords(c) && Occurs(m, k)
  }

  /** The executable group test: `m.includes(k1) || m.includes(k2) || ...`. */
  predicate GroupMatches(m: string, c: Category) {
    exists k | k in Keywords(c) :: Contains(m, k)
  }

  lemma GroupMatchesIffOccurs(m: string)
    ensures forall c: Category :: GroupMatches(m, c) <==> GroupOccurs(m, c)
  {
    forall c: Category, k | k in Keywords(c)
      ensures Contains(m, k) <==> Occurs(m, k)
    {
    }
  }

  /**
   * The category the reply is drawn from. The message is lower-cased first;
   * then the groups are tried in the order sad, anxious, happy, tired, angry,
   * and the first group with any keyword occurring in the text decides.
   */
  function Classify(message: string): (c: Category)
    ensures c != Default ==> GroupOccurs(Lower(message), c)
    ensures forall d: Category :: Rank(d) < Rank(c) ==> !GroupOccurs(Lower(message), d)
  {
    var m := Lower(message);
    GroupMatchesIffOccurs(m);
    if GroupMatches(m, Sad) then Sad
    else if GroupMatches(m, Anxious) then Anxious
    else if GroupMatches(m, Happy) then Happy
    else if GroupMatches(m, Tired) then Tired
    else if GroupMatches(m, Angry) then Angry
    else Default
  }

  // ---------------------------------------------------------------------------
  // Reply pools

  /** One canned reply: the pool it belongs to and its position in that pool. */
  datatype CannedReply = CannedReply(category: Category, index: nat)

  function PoolSize(c: Category): nat {
    if c == Default then 5 else 3
  }

  /** The ordered reply pool of a category. */
  function Pool(c: Category): (p: seq<CannedReply>)
    ensures |p| == PoolSize(c)
    ensures forall i :: 0 <= i < |p| ==> p[i] == CannedReply(c, i)
  {
    seq(PoolSize(c), i requires 0 <= i < PoolSize(c) => CannedReply(c, i))
  }

  /** The literal text of each canned reply, pool by pool, in source order. */
  function ReplyText(x: CannedReply): string
    requires x.index < PoolSize(x.category)
  {
    var i := x.index;
    match x.category
    case Sad =>
      if i == 0 then "I'm really sorry you're feeling this way. It's brave of you to share these feelings with me. What's been weighing on your heart lately?"
      else if i == 1 then "Sadness is a natural part of the human experience, and it's okay to feel this way. Would you like to talk about what's making you feel down?"
      else "I hear the pain in your words. You don't have to go through this alone. What small thing could bring you a tiny bit of comfort right now?"
    case Anxious =>
      if i == 0 then "Anxiety can feel overwhelming, but you're taking a positive step by reaching out. Let's work through this together. What's triggering these feelings?"
      else if i == 1 then "I understand that feeling stressed can be exhausting. Would you like to try a quick breathing exercise, or would you prefer to talk about what's causing your worry?"
      else "It sounds like you're carrying a heavy load right now. What's one thing on your mind that we could break down into smaller, manageable pieces?"
    case Happy =>
      if i == 0 then "I love hearing that you're feeling good! Your positive energy is wonderful. What's bringing you joy today?"
      else if i == 1 then "That's fantastic! It's beautiful to see you in such a positive space. Would you like to share what's making you feel so happy?"
      else "Your happiness is contagious! It's important to celebrate these good moments. What would you like to do to keep this positive energy flowing?"
    case Tired =>
      if i == 0 then "Being tired can really affect how we feel emotionally. Are you getting enough rest, or is something keeping you from sleeping well?"
      else if i == 1 then "Physical and mental exhaustion often go hand in hand. What's been demanding most of your energy lately?"
      else "Rest is so important for our mental health. Would you like to talk about your sleep routine or what's been draining your energy?"
    case Angry =>
      if i == 0 then "It sounds like you're feeling really frustrated right now. Anger can be a signal that something important to you isn't being respected. What's got you feeling this way?"
      else if i == 1 then "I can sense your frustration. It's okay to feel angry - it's a valid emotion. Would you like to talk about what triggered these feelings?"
      else "Anger can be intense and overwhelming. You're in a safe space here. What situation or person has you feeling so frustrated?"
    case Default =>
      if i == 0 then "I hear you, and your feelings are completely valid. Would you like to share more about what's on your mind?"
      else if i == 1 then "Thank you for opening up to me. It takes courage to express your feelings. How can I support you right now?"
      else if i == 2 then "I'm here with you. Sometimes just talking about things can help us process them better. What would help you feel more at ease?"
      else if i == 3 then "Your mental health journey is unique and important. Every small step you take matters. What's one thing that brought you comfort recently?"
      else "I appreciate you trusting me with your thoughts. Remember, it's okay to feel what you're feeling. What would you like to explore together?"
  }

  /** `getContextualResponse` with `Math.random() = r`: a reply from the message's pool. */
  function Reply(message: string, r: real): (x: CannedReply)
    requires 0.0 <= r < 1.0
    ensures x in Pool(Classify(message))
    ensures x.category == Classify(message) && x.index < PoolSize(x.category)
  {
    Pick(Pool(Classify(message)), r)
  }

  // ---------------------------------------------------------------------------
  // Properties of the classifier

  /** The classification depends only on the lower-cased text. */
  lemma ClassifyCaseInsensitive(s: string, t: string)
    requires Lower(s) == Lower(t)
    ensures Classify(s) == Classify(t)
  {
  }

  /** In particular, shouting the same message gets the same category. */
  lemma ClassifyIgnoresUpperCase(s: string)
    ensures Classify(Upper(s)) == Classify(s)
    ensures Classify(Lower(s)) == Classify(s)
  {
    LowerOfUpper(s);
    LowerIdempotent(s);
  }

  /**
   * Classification is exactly "the first group, in source order, whose keyword
   * occurs in the lower-cased text", and `Default` when no group matches.
   */
  lemma ClassifyIsFirstMatch(s: string, c: Category)
    ensures Classify(s) == c <==>
      (if c == Default then forall d: Category :: d != Default ==> !GroupOccurs(Lower(s), d)
       else GroupOccurs(Lower(s), c) && forall d: Category :: Rank(d) < Rank(c) ==> !GroupOccurs(Lower(s), d))
  {
    var r := Classify(s);
    if c == Default && r != Default {
      assert GroupOccurs(Lower(s), r);
    }
    if c != Default && r != c {
      if Rank(r) < Rank(c) {
        assert r != Default;
      }
    }
  }

  /** A sad keyword anywhere, in any letter case, always yields the sad pool. */
  lemma SadKeywordWins(s: string, k: string, r: real)
    requires k in Keywords(Sad) && Contains(Lower(s), k)
    requires 0.0 <= r < 1.0
    ensures Classify(s) == Sad
    ensures Reply(s, r) in Pool(Sad) && |Pool(Sad)| == 3
  {
  }

  /** A message with no keyword of any group gets a reply from the five-item default pool. */
  lemma NoKeywordGetsDefault(s: string, r: real)
    requires forall c: Category, k | k in Keywords(c) :: !Contains(Lower(s), k)
    requires 0.0 <= r < 1.0
    ensures Classify(s) == Default
    ensures Reply(s, r) in Pool(Default) && |Pool(Default)| == 5
  {
    forall c: Category, k | k in Keywords(c)
      ensures !Occurs(Lower(s), k)
    {
      assert !Contains(Lower(s), k);
    }
  }

  /** Matching is by substring: a keyword inside a longer word still counts. */
  lemma KeywordInsideWord(a: string, k: string, b: string, c: Category)
    requires c != Default && k in Keywords(c)
    ensures Rank(Classify(a + k + b)) <= Rank(c)
  {
    var s := a + k + b;
    KeywordsAreLower(c);
    LowerConcat(a, k);
    LowerConcat(a + k, b);
    ContainsInfix(Lower(a), k, Lower(b));
  }

  /** Every keyword is already lower case, so lower-casing the input can only help it match. */
  lemma KeywordsAreLower(c: Category)
    ensures forall k :: k in Keywords(c) ==> Lower(k) == k
  {
    var ks := Keywords(c);
    LowerWordsFixed(ks);
    assert forall k :: k in ks ==> exists j :: 0 <= j < |ks| && ks[j] == k;
  }

  /** Words of lower-case letters only are their own lower-cased forms. */
  lemma LowerWordsFixed(ks: seq<string>)
    requires forall j, i :: 0 <= j < |ks| && 0 <= i < |ks[j]| ==> 'a' <= ks[j][i] <= 'z'
    ensures forall j :: 0 <= j < |ks| ==> Lower(ks[j]) == ks[j]
  {
    forall j | 0 <= j < |ks|
      ensures Lower(ks[j]) == ks[j]
    {
    }
  }

  /** "download" is classified as sad because it contains "down". */
  lemma DownloadIsSad()
    ensures Classify("download") == Sad
  {
    var m := Lower("download");
    assert m[..4] == "down" && Contains(m, "down");
    assert Keywords(Sad)[2] == "down";
  }

  /** When two groups both occur, the one tested first decides, whatever the wording. */
  lemma EarlierGroupWins(s: string, c1: Category, c2: Category)
    requires c1 != Default && Rank(c1) < Rank(c2)
    requires GroupOccurs(Lower(s), c1)
    ensures Classify(s) != c2 && Rank(Classify(s)) <= Rank(c1)
  {
  }

  // ---------------------------------------------------------------------------
  // The transcript

  datatype Message = Message(text: string, fromUser: bool)

  /**
   * Chat state: the transcript, the input box, the typing indicator, and the
   * texts whose 1500 ms reply timers have been scheduled but have not fired,
   * oldest first.
   */
  datatype ChatState = ChatState(messages: seq<Message>, input: string, typing: bool, pending: seq<string>)

  /**
   * The greeting shown before anything is typed. Its text is written as
   * `+`-joined pieces only because the verifier handles short literals much
   * faster than one long one; the joined string is the one the component shows.
   */
  const Greeting: Message := Message(
    "Hello! I'm "
    + "Mitra, your AI "
    + "companion for "
    + "mental wellness. "
    + "I'm here to "
    + "listen, support, "
    + "and help you "
    + "navigate your "
    + "thoughts and "
    + "feelings. How "
    + "are you feeling "
    + "today?",
    false)

  const Initial: ChatState := ChatState([Greeting], "", false, [])

  /** Typing into the input box. */
  function SetInput(s: ChatState, text: string): (s': ChatState)
    ensures s'.input == text
    ensures s'.messages == s.messages && s'.typing == s.typing && s'.pending == s.pending
  {
    s.(input := text)
  }

  /**
   * `handleSendMessage`: a blank input is rejected; otherwise the user's text
   * is appended, the input cleared, the typing indicator shown, and a reply to
   * that same text scheduled.
   */
  function Send(s: ChatState): (s': ChatState)
    ensures IsBlank(s.input) ==> s' == s
    ensures !IsBlank(s.input) ==>
      && s'.messages == s.messages + [Message(s.input, true)]
      && s'.input == ""
      && s'.typing
      && s'.pending == s.pending + [s.input]
  {
    if IsBlank(s.input) then s
    else ChatState(s.messages + [Message(s.input, true)], "", true, s.pending + [s.input])
  }

  /** The oldest scheduled timer fires: one bot reply to that text is appended. */
  function Deliver(s: ChatState, r: real): (s': ChatState)
    requires |s.pending| > 0 && 0.0 <= r < 1.0
    ensures |s'.messages| == |s.messages| + 1 && s'.messages[..|s.messages|] == s.messages
    ensures var m := s'.messages[|s.messages|];
      !m.fromUser && exists x :: x in Pool(Classify(s.pending[0])) && m.text == ReplyText(x)
    ensures s'.pending == s.pending[1..] && !s'.typing && s'.input == s.input
  {
    var x := Reply(s.pending[0], r);
    s.(messages := s.messages + [Message(ReplyText(x), false)], typing := false, pending := s.pending[1..])
  }

  // ---------------------------------------------------------------------------
  // Transcript invariant

  /** Texts of the user's messages, in transcript order. */
  function UserTexts(ms: seq<Message>): (ts: seq<string>)
    ensures |ts| + BotCount(ms) == |ms|
  {
    if |ms| == 0 then []
    else UserTexts(ms[..|ms| - 1]) + (if ms[|ms| - 1].fromUser then [ms[|ms| - 1].text] else [])
  }

  function BotCount(ms: seq<Message>): nat {
    if |ms| == 0 then 0
    else BotCount(ms[..|ms| - 1]) + (if ms[|ms| - 1].fromUser then 0 else 1)
  }

  lemma UserTextsAppend(ms: seq<Message>, m: Message)
    ensures UserTexts(ms + [m]) == UserTexts(ms) + (if m.fromUser then [m.text] else [])
    ensures BotCount(ms + [m]) == BotCount(ms) + (if m.fromUser then 0 else 1)
  {
    assert (ms + [m])[..|ms|] == ms;
  }

  /** Every message the user sent has some non-whitespace text. */
  ghost predicate UserNonBlank(ms: seq<Message>) {
    forall i :: 0 <= i < |ms| && ms[i].fromUser ==> !IsBlank(ms[i].text)
  }

  /**
   * A transcript `ms` with replies scheduled for the texts `p`: it starts with
   * the greeting; every user message is non-blank; the scheduled texts are the
   * latest user messages, in order; and every user message not awaiting a
   * reply has been answered by one bot message.
   */
  ghost predicate Consistent(ms: seq<Message>, p: seq<string>) {
    && |ms| > 0 && ms[0] == Greeting
    && UserNonBlank(ms)
    && |p| <= |UserTexts(ms)|
    && UserTexts(ms)[|UserTexts(ms)| - |p|..] == p
    && |UserTexts(ms)| + 1 == BotCount(ms) + |p|
  }

  /** Reachable chat states: the transcript is consistent with the scheduled replies. */
  ghost predicate Valid(s: ChatState) {
    Consistent(s.messages, s.pending)
  }

  lemma InitialValid()
    ensures Valid(Initial)
  {
    assert [Greeting][..0] == [];
  }

  lemma NonBlankAppend(ms: seq<Message>, m: Message)
    requires UserNonBlank(ms) && (m.fromUser ==> !IsBlank(m.text))
    ensures UserNonBlank(ms + [m])
  {
    forall i | 0 <= i < |ms + [m]| && (ms + [m])[i].fromUser
      ensures !IsBlank((ms + [m])[i].text)
    {
      if i < |ms| {
        assert (ms + [m])[i] == ms[i];
      }
    }
  }

  /** A non-blank user message scheduled for a reply keeps the transcript consistent. */
  lemma SendStep(ms: seq<Message>, p: seq<string>, x: string)
    requires Consistent(ms, p) && !IsBlank(x)
    ensures Consistent(ms + [Message(x, true)], p + [x])
  {
    var m := Message(x, true);
    SendCounts(ms, p, x);
    NonBlankAppend(ms, m);
    assert (ms + [m])[0] == Greeting;
  }

  /** After a send, the scheduled texts are still the latest user texts and the counts still balance. */
  lemma SendCounts(ms: seq<Message>, p: seq<string>, x: string)
    requires |p| <= |UserTexts(ms)| && UserTexts(ms)[|UserTexts(ms)| - |p|..] == p
    requires |UserTexts(ms)| + 1 == BotCount(ms) + |p|
    ensures var u := UserTexts(ms + [Message(x, true)]);
      |p + [x]| <= |u| && u[|u| - |p + [x]|..] == p + [x]
      && |u| + 1 == BotCount(ms + [Message(x, true)]) + |p + [x]|
  {
    UserTextsAppend(ms, Message(x, true));
    SuffixAppend(UserTexts(ms), p, x);
  }

  /** Appending the same text to a sequence and to its suffix keeps the suffix a suffix. */
  lemma SuffixAppend(u: seq<string>, p: seq<string>, x: string)
    requires |p| <= |u| && u[|u| - |p|..] == p
    ensures (u + [x])[|u + [x]| - |p + [x]|..] == p + [x]
  {
    assert (u + [x])[|u| - |p|..] == u[|u| - |p|..] + [x];
  }

  /** A bot reply answering the oldest scheduled text keeps the transcript consistent. */
  lemma DeliverStep(ms: seq<Message>, p: seq<string>, m: Message)
    requires Consistent(ms, p) && |p| > 0 && !m.fromUser
    ensures Consistent(ms + [m], p[1..])
  {
    UserTextsAppend(ms, m);
    var u := UserTexts(ms);
    assert u[|u| - |p[1..]|..] == u[|u| - |p|..][1..];
    NonBlankAppend(ms, m);
    assert (ms + [m])[0] == Greeting;
  }

  lemma SendPreservesValid(s: ChatState)
    requires Valid(s)
    ensures Valid(Send(s))
    ensures s.messages <= Send(s).messages
  {
    if !IsBlank(s.input) {
      SendStep(s.messages, s.pending, s.input);
    }
  }

  lemma DeliverPreservesValid(s: ChatState, r: real)
    requires Valid(s) && |s.pending| > 0 && 0.0 <= r < 1.0
    ensures Valid(Deliver(s, r))
    ensures s.messages <= Deliver(s, r).messages
  {
    var s' := Deliver(s, r);
    var m := s'.messages[|s.messages|];
    assert s'.messages == s.messages + [m];
    DeliverStep(s.messages, s.pending, m);
  }

  lemma SetInputPreservesValid(s: ChatState, text: string)
    requires Valid(s)
    ensures Valid(SetInput(s, text))
  {
  }
}
