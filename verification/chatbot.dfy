/**
 The AI-assistant chat: the canned reply chosen by keyword, sending a message
 and delivering the reply, and the typing indicator's dot counter. The 1.5 s
 reply delay and the 0.5 s timer are left out; delivering a reply and a timer
 tick are plain transitions here.
 */
module Chatbot {
  import opened Wrappers
  import opened Text

  // ------------------------------------------------------------------- replies

  const AdmissionsReply := "Our admissions are open year-round! You can visit our schools page to find the nearest school and contact them directly for enrollment details."
  const ProgramsReply := "We offer various programs for different age groups. Check out our Programs section to see all available options and their details."
  const FeesReply := "Our fees vary by program and school. Please visit the Programs section or contact the specific school for detailed fee information."
  const TeachersReply := "We have highly qualified teachers across all subjects. You can browse our Teachers Portfolio to learn more about our faculty members."
  const ActivitiesReply := "We offer a wide range of activities including sports, arts, and cultural programs. Check out our Activities section for more details!"
  const ContactReply := "You can reach us at +1 (555) 123-4567 or email us at info@schoolsystem.edu. Visit our Contact page for more information."
  const GreetingReply := "Hello! How can I assist you with your educational needs today?"
  const FallbackReply := "Thank you for your question! For specific information, please explore our app sections or contact us directly. Is there anything specific I can help you with?"

  /** Every reply the assistant can give. */
  const Replies: seq<string> :=
    [AdmissionsReply, ProgramsReply, FeesReply, TeachersReply, ActivitiesReply, ContactReply, GreetingReply, FallbackReply]

  /** A set of keywords and the reply any one of them triggers. */
  datatype KeywordGroup = KeywordGroup(keywords: seq<string>, reply: string)

  /** The keyword groups, highest priority first. */
  const Groups: seq<KeywordGroup> := [
    KeywordGroup(["admission", "enroll"], AdmissionsReply),
    KeywordGroup(["program", "course"], ProgramsReply),
    KeywordGroup(["fee", "cost", "price"], FeesReply),
    KeywordGroup(["teacher", "faculty"], TeachersReply),
    KeywordGroup(["activity", "sport"], ActivitiesReply),
    KeywordGroup(["contact", "phone", "email"], ContactReply),
    KeywordGroup(["hello", "hi"], GreetingReply)
  ]

  /** The lower-cased message contains one of the keywords. */
  predicate Mentions(lowered: string, keywords: seq<string>)
    decreases |keywords|
  {
    |keywords| > 0 && (Contains(lowered, keywords[0]) || Mentions(lowered, keywords[1..]))
  }

  /** `Mentions` is "some keyword is a substring". */
  lemma {:induction false} MentionsIff(lowered: string, keywords: seq<string>)
    ensures Mentions(lowered, keywords) <==> exists k :: k in keywords && Contains(lowered, k)
    decreases |keywords|
  {
    if |keywords| > 0 {
      MentionsIff(lowered, keywords[1..]);
      if Contains(lowered, keywords[0]) {
        assert keywords[0] in keywords;
      }
      forall k | k in keywords[1..]
        ensures k in keywords
      {
      }
      forall k | k in keywords && k != keywords[0]
        ensures k in keywords[1..]
      {
        var i :| 0 <= i < |keywords| && keywords[i] == k;
        assert keywords[1..][i - 1] == k;
      }
    }
  }

  /** The index of the first group the message mentions, if any. */
  function FirstMatch(lowered: string, groups: seq<KeywordGroup>): (r: Option<nat>)
    ensures r.Some? ==> r.value < |groups| && Mentions(lowered, groups[r.value].keywords)
    ensures r.Some? ==> forall j :: 0 <= j < r.value ==> !Mentions(lowered, groups[j].keywords)
    ensures r.None? <==> forall j :: 0 <= j < |groups| ==> !Mentions(lowered, groups[j].keywords)
    decreases |groups|
  {
    if |groups| == 0 then None
    else if Mentions(lowered, groups[0].keywords) then Some(0)
    else
      var rest := FirstMatch(lowered, groups[1..]);
      assert forall j :: 1 <= j < |groups| ==> groups[j] == groups[1..][j - 1];
      if rest.None? then None else Some(rest.value + 1)
  }

  /** Walking a group table in order: the first mentioned group's reply, or the fallback. */
  function Select(lowered: string, groups: seq<KeywordGroup>): string
    decreases |groups|
  {
    if |groups| == 0 then FallbackReply
    else if Mentions(lowered, groups[0].keywords) then groups[0].reply
    else Select(lowered, groups[1..])
  }

  /** Walking the table picks the reply of the group `FirstMatch` finds. */
  lemma {:induction false} SelectIsFirstMatch(lowered: string, groups: seq<KeywordGroup>)
    ensures Select(lowered, groups) ==
      match FirstMatch(lowered, groups)
      case Some(i) => groups[i].reply
      case None => FallbackReply
    decreases |groups|
  {
    if |groups| > 0 && !Mentions(lowered, groups[0].keywords) {
      SelectIsFirstMatch(lowered, groups[1..]);
    }
  }

  /**
   The `if` chain of `generateResponse` on the already lower-cased message: each
   test is a substring test for one keyword; the first hit picks the reply.
   */
  function Respond(lowered: string): (r: string)
    ensures r in Replies
  {
    if Contains(lowered, "admission") || Contains(lowered, "enroll") then AdmissionsReply
    else if Contains(lowered, "program") || Contains(lowered, "course") then ProgramsReply
    else if Contains(lowered, "fee") || Contains(lowered, "cost") || Contains(lowered, "price") then FeesReply
    else if Contains(lowered, "teacher") || Contains(lowered, "faculty") then TeachersReply
    else if Contains(lowered, "activity") || Contains(lowered, "sport") then ActivitiesReply
    else if Contains(lowered, "contact") || Contains(lowered, "phone") || Contains(lowered, "email") then ContactReply
    else if Contains(lowered, "hello") || Contains(lowered, "hi") then GreetingReply
    else FallbackReply
  }

  /** `generateResponse`: the chain applied to the lower-cased message. */
  function GenerateResponse(message: string): (r: string)
    ensures r in Replies
    ensures r == Select(Lower(message), Groups)
  {
    RespondIsSelect(Lower(message));
    Respond(Lower(message))
  }

  lemma MentionsTwo(lowered: string, a: string, b: string)
    ensures Mentions(lowered, [a, b]) <==> Contains(lowered, a) || Contains(lowered, b)
  {
    assert [a, b][1..] == [b];
    assert [b][1..] == [];
    assert !Mentions(lowered, []);
    assert Mentions(lowered, [b]) == Contains(lowered, b);
    assert Mentions(lowered, [a, b]) == (Contains(lowered, a) || Mentions(lowered, [b]));
  }

  lemma MentionsThree(lowered: string, a: string, b: string, c: string)
    ensures Mentions(lowered, [a, b, c]) <==> Contains(lowered, a) || Contains(lowered, b) || Contains(lowered, c)
  {
    assert [a, b, c][1..] == [b, c];
    MentionsTwo(lowered, b, c);
  }

  /** The chain of tests is the priority table walked in order. */
  lemma RespondIsSelect(lowered: string)
    ensures Respond(lowered) == Select(lowered, Groups)
  {
    var g := Groups;
    MentionsTwo(lowered, "admission", "enroll");
    MentionsTwo(lowered, "program", "course");
    MentionsThree(lowered, "fee", "cost", "price");
    MentionsTwo(lowered, "teacher", "faculty");
    MentionsTwo(lowered, "activity", "sport");
    MentionsThree(lowered, "contact", "phone", "email");
    MentionsTwo(lowered, "hello", "hi");
    var g1, g2, g3, g4, g5, g6 := g[1..], g[2..], g[3..], g[4..], g[5..], g[6..];
    assert g1 == g[1..] && g2 == g1[1..] && g3 == g2[1..] && g4 == g3[1..] && g5 == g4[1..] && g6 == g5[1..];
    assert g6[1..] == [];
    assert Select(lowered, g6) == if Mentions(lowered, g[6].keywords) then g[6].reply else FallbackReply;
    assert Select(lowered, g5) == if Mentions(lowered, g[5].keywords) then g[5].reply else Select(lowered, g6);
    assert Select(lowered, g4) == if Mentions(lowered, g[4].keywords) then g[4].reply else Select(lowered, g5);
    assert Select(lowered, g3) == if Mentions(lowered, g[3].keywords) then g[3].reply else Select(lowered, g4);
    assert Select(lowered, g2) == if Mentions(lowered, g[2].keywords) then g[2].reply else Select(lowered, g3);
    assert Select(lowered, g1) == if Mentions(lowered, g[1].keywords) then g[1].reply else Select(lowered, g2);
    assert Select(lowered, g) == if Mentions(lowered, g[0].keywords) then g[0].reply else Select(lowered, g1);
  }

  /**
   Priority: the reply is that of the first group the lower-cased message mentions,
   and the fallback exactly when it mentions none of them.
   */
  lemma ResponseIsFirstMatch(message: string)
    ensures var m := FirstMatch(Lower(message), Groups);
      GenerateResponse(message) == if m.Some? then Groups[m.value].reply else FallbackReply
    ensures GenerateResponse(message) == FallbackReply <==>
      forall j :: 0 <= j < |Groups| ==> !Mentions(Lower(message), Groups[j].keywords)
  {
    SelectIsFirstMatch(Lower(message), Groups);
    var m := FirstMatch(Lower(message), Groups);
    if m.Some? {
      assert |Groups[m.value].reply| != |FallbackReply|;
    }
  }

  /** The reply depends only on the lower-cased message: "ADMISSION" and "Admission" get the same answer. */
  lemma ResponseIgnoresCase(message: string)
    ensures GenerateResponse(message) == GenerateResponse(Lower(message))
  {
    LowerIdempotent(message);
  }

  /** Matching is by substring, so "this" (which holds "hi") is answered with the greeting. */
  lemma ThisGetsGreeting()
    ensures GenerateResponse("this") == GreetingReply
  {
    assert Lower("this") == "this";
    assert OccursAt("this", "hi", 1);
    ContainsIffOccurs("this", "hi");
    ContainsNeedsRoom("this", "admission");
    ContainsNeedsRoom("this", "enroll");
    ContainsNeedsRoom("this", "program");
    ContainsNeedsRoom("this", "course");
    ContainsNeedsRoom("this", "price");
    ContainsNeedsRoom("this", "teacher");
    ContainsNeedsRoom("this", "faculty");
    ContainsNeedsRoom("this", "activity");
    ContainsNeedsRoom("this", "sport");
    ContainsNeedsRoom("this", "contact");
    ContainsNeedsRoom("this", "phone");
    ContainsNeedsRoom("this", "email");
    ContainsNeedsRoom("this", "hello");
    ContainsIffOccurs("this", "fee");
    ContainsIffOccurs("this", "cost");
  }

  // ------------------------------------------------------------------ the chat

  datatype ChatMessage = ChatMessage(content: string, isUser: bool)

  datatype Chat = Chat(messages: seq<ChatMessage>, inputText: string, isTyping: bool)

  const Welcome := "Hello! I'm your AI assistant. How can I help you today?"

  /** The chat as it opens: the assistant's welcome and an empty input field. */
  const NewChat: Chat := Chat([ChatMessage(Welcome, false)], "", false)

  /** The send button is disabled while the input field is empty (whitespace still enables it). */
  predicate SendDisabled(c: Chat) {
    c.inputText == ""
  }

  /**
   `sendMessage`: trim the input; if nothing is left, do nothing at all (the input
   is not even cleared). Otherwise append it as the user's message, clear the
   input, and show the typing indicator until the reply is delivered.
   */
  function SendMessage(c: Chat): (r: Chat)
    ensures AllWhitespace(c.inputText) ==> r == c
    ensures !AllWhitespace(c.inputText) ==>
      && r.messages == c.messages + [ChatMessage(Trim(c.inputText), true)]
      && r.inputText == "" && r.isTyping
    ensures !AllWhitespace(c.inputText) ==>
      var sent := r.messages[|r.messages| - 1].content;
      sent != "" && !IsWhitespace(sent[0]) && !IsWhitespace(sent[|sent| - 1])
  {
    TrimEnds(c.inputText);
    TrimEmptyIff(c.inputText);
    var userMessage := Trim(c.inputText);
    if userMessage == "" then c
    else Chat(c.messages + [ChatMessage(userMessage, true)], "", true)
  }

  /** The delayed half of `sendMessage`: hide the indicator and append the reply to `userMessage`. */
  function DeliverReply(c: Chat, userMessage: string): (r: Chat)
    ensures r.messages == c.messages + [ChatMessage(GenerateResponse(userMessage), false)]
    ensures !r.isTyping && r.inputText == c.inputText
  {
    c.(messages := c.messages + [ChatMessage(GenerateResponse(userMessage), false)], isTyping := false)
  }

  /**
   A full exchange adds exactly two messages, the trimmed question and then the
   reply to it, and leaves the input empty and the indicator hidden.
   */
  lemma ExchangeAddsTwo(c: Chat)
    requires !AllWhitespace(c.inputText)
    ensures var question := Trim(c.inputText);
      var r := DeliverReply(SendMessage(c), question);
      && r.messages == c.messages + [ChatMessage(question, true), ChatMessage(GenerateResponse(question), false)]
      && r.inputText == "" && !r.isTyping
  {
  }

  /** Whitespace-only input passes the button's guard but appends nothing. */
  lemma WhitespaceOnlyAppendsNothing(c: Chat)
    requires !SendDisabled(c) && AllWhitespace(c.inputText)
    ensures SendMessage(c).messages == c.messages
  {
  }

  /** The user message appended depends only on the trimmed input: surrounding blanks change nothing. */
  lemma SentTextIgnoresSurroundingBlanks(c: Chat, c': Chat)
    requires Trim(c.inputText) == Trim(c'.inputText) && !AllWhitespace(c.inputText)
    ensures SendMessage(c).messages[|SendMessage(c).messages| - 1] == SendMessage(c').messages[|SendMessage(c').messages| - 1]
  {
    TrimEmptyIff(c.inputText);
    TrimEmptyIff(c'.inputText);
  }

  // --------------------------------------------------------- typing indicator

  /**
   One timer tick: `numberOfDots = (numberOfDots + 1) % 4`, with Swift's `%`,
   whose remainder takes the sign of the dividend.
   */
  function Tick(dots: int): (r: int)
    ensures -1 <= dots ==> 0 <= r <= 3
    ensures 0 <= dots < 3 ==> r == dots + 1
    ensures dots == 3 ==> r == 0
    ensures -4 < r < 4
  {
    var a := dots + 1;
    if a >= 0 then a % 4 else -((-a) % 4)
  }

  /** The counter after `k` ticks of an indicator that started at 0. */
  function DotsAfter(k: nat): (r: int)
    ensures 0 <= r <= 3
  {
    if k == 0 then 0 else Tick(DotsAfter(k - 1))
  }

  /** The counter cycles 0, 1, 2, 3, 0, …: after `k` ticks it reads `k mod 4`. */
  lemma {:induction false} DotsCycle(k: nat)
    ensures DotsAfter(k) == k % 4
  {
    if k > 0 {
      DotsCycle(k - 1);
    }
  }

  /** Dot `index` (0, 1 or 2) is drawn opaque while the counter exceeds it. */
  predicate DotLit(dots: int, index: nat) {
    dots > index
  }

  /** After `k` ticks exactly the first `k mod 4` dots are lit, so the dots fill up and then all dim together. */
  lemma LitDotsAfter(k: nat, index: nat)
    requires index < 3
    ensures DotLit(DotsAfter(k), index) <==> index < k % 4
  {
    DotsCycle(k);
  }
}
