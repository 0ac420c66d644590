/** `get_bot_response`: a canned responder that tries case-insensitive
    substring rules in a fixed order on the stripped message. */
module Mess {
  import opened Common
  import opened Text

  const EmptyPrompt: string := "Please say something so I can help you."
  const Greeting: string := "Hi there! How can I assist you today?"
  const Wellbeing: string := "I\'m doing great! Thanks for asking. How about you?"
  const OwnName: string := "I\'m your AIchatbot assistant, powered by FastAPI!"
  const Farewell: string := "Goodbye! Have a wonderful day!"
  const Assistance: string := "Sure! You can ask me about this project or test any query you\'d like."
  const Echo: string := "You said: "

  /** `message.strip().lower()`. */
  function Normalized(message: string): string {
    Lower(Strip(message))
  }

  function BotResponse(message: string): (r: string)
    ensures r != []
  {
    if Strip(message) == [] then EmptyPrompt else Reply(Normalized(message), message)
  }

  /** The `if`/`elif` chain on the normalized text `msg` of `message`. */
  function Reply(msg: string, message: string): (r: string)
    ensures r != [] && r != EmptyPrompt
  {
    if Contains(msg, "hi") || Contains(msg, "hello") || Contains(msg, "hey") then Greeting
    else if Contains(msg, "how are you") then Wellbeing
    else if Contains(msg, "your name") then OwnName
    else if Contains(msg, "bye") || Contains(msg, "goodbye") then Farewell
    else if Contains(msg, "help") then Assistance
    else
      assert (Echo + message)[0] == 'Y' != EmptyPrompt[0];
      Echo + message
  }

  /** A rule of the reference table: any keyword selects the reply. */
  datatype Rule = Rule(keywords: seq<string>, reply: string)

  /** The rules in priority order. */
  const Rules: seq<Rule> := [
    Rule(["hi", "hello", "hey"], Greeting),
    Rule(["how are you"], Wellbeing),
    Rule(["your name"], OwnName),
    Rule(["bye", "goodbye"], Farewell),
    Rule(["help"], Assistance)]

  /** `any(k in msg for k in keywords)`. */
  function AnyIn(keywords: seq<string>, msg: string): (b: bool)
    ensures b <==> exists k :: 0 <= k < |keywords| && Contains(msg, keywords[k])
  {
    if keywords == [] then false else Contains(msg, keywords[0]) || AnyIn(keywords[1..], msg)
  }

  /** The reply of the first rule that matches, if any. */
  function FirstMatch(rules: seq<Rule>, msg: string): Option<string> {
    if rules == [] then None
    else if AnyIn(rules[0].keywords, msg) then Some(rules[0].reply)
    else FirstMatch(rules[1..], msg)
  }

  /** `FirstMatch` finds a rule exactly when one matches, and then it is the
      reply of the earliest matching rule. */
  lemma {:induction false} FirstMatchSpec(rules: seq<Rule>, msg: string)
    ensures FirstMatch(rules, msg).Some? <==> exists k :: 0 <= k < |rules| && AnyIn(rules[k].keywords, msg)
    ensures FirstMatch(rules, msg).Some? ==>
      exists k :: 0 <= k < |rules| && FirstMatch(rules, msg).value == rules[k].reply &&
        AnyIn(rules[k].keywords, msg) && (forall j :: 0 <= j < k ==> !AnyIn(rules[j].keywords, msg))
  {
    if rules != [] && !AnyIn(rules[0].keywords, msg) {
      FirstMatchSpec(rules[1..], msg);
      if exists k :: 0 <= k < |rules| && AnyIn(rules[k].keywords, msg) {
        var k :| 0 <= k < |rules| && AnyIn(rules[k].keywords, msg);
        assert rules[1..][k - 1] == rules[k];
      }
      if FirstMatch(rules, msg).Some? {
        var k :| 0 <= k < |rules[1..]| && FirstMatch(rules[1..], msg).value == rules[1..][k].reply &&
          AnyIn(rules[1..][k].keywords, msg) && (forall j :: 0 <= j < k ==> !AnyIn(rules[1..][j].keywords, msg));
        assert rules[k + 1] == rules[1..][k];
        forall j | 0 <= j < k + 1 ensures !AnyIn(rules[j].keywords, msg) {
          if j > 0 {
            assert rules[j] == rules[1..][j - 1];
          }
        }
      }
    }
  }

  lemma FirstMatchCons(r: Rule, rest: seq<Rule>, msg: string)
    ensures FirstMatch([r] + rest, msg) == if AnyIn(r.keywords, msg) then Some(r.reply) else FirstMatch(rest, msg)
  {
    assert ([r] + rest)[1..] == rest;
  }

  lemma OneKeyword(kw: string, msg: string)
    ensures AnyIn([kw], msg) == Contains(msg, kw)
  {
    assert [kw][1..] == [];
  }

  lemma TwoKeywords(k1: string, k2: string, msg: string)
    ensures AnyIn([k1, k2], msg) == (Contains(msg, k1) || Contains(msg, k2))
  {
    assert [k1, k2][1..] == [k2];
    OneKeyword(k2, msg);
  }

  lemma ThreeKeywords(k1: string, k2: string, k3: string, msg: string)
    ensures AnyIn([k1, k2, k3], msg) == (Contains(msg, k1) || Contains(msg, k2) || Contains(msg, k3))
  {
    assert [k1, k2, k3][1..] == [k2, k3];
    TwoKeywords(k2, k3, msg);
  }

  /** The if-chain is the rule table tried in order, with the echo of the
      unstripped message when no rule matches. */
  lemma ReplyMatchesRuleTable(msg: string, message: string)
    ensures Reply(msg, message) ==
      match FirstMatch(Rules, msg)
      case Some(reply) => reply
      case None => Echo + message
  {
    ThreeKeywords("hi", "hello", "hey", msg);
    OneKeyword("how are you", msg);
    OneKeyword("your name", msg);
    TwoKeywords("bye", "goodbye", msg);
    OneKeyword("help", msg);
    var r4 := [Rules[4]];
    var r3 := [Rules[3]] + r4;
    var r2 := [Rules[2]] + r3;
    var r1 := [Rules[1]] + r2;
    assert Rules == [Rules[0]] + r1;
    FirstMatchCons(Rules[4], [], msg);
    assert r4 == [Rules[4]] + [];
    FirstMatchCons(Rules[3], r4, msg);
    FirstMatchCons(Rules[2], r3, msg);
    FirstMatchCons(Rules[1], r2, msg);
    FirstMatchCons(Rules[0], r1, msg);
  }

  /** The responder answers a blank message with the prompt and any other
      message by the rule table on its normalized text. */
  lemma MatchesRuleTable(message: string)
    ensures BotResponse(message) ==
      if IsBlank(message) then EmptyPrompt
      else match FirstMatch(Rules, Normalized(message))
        case Some(reply) => reply
        case None => Echo + message
  {
    StripEmptyIffBlank(message);
    ReplyMatchesRuleTable(Normalized(message), message);
  }

  /** Only a blank message gets the "say something" prompt. */
  lemma PromptIffBlank(message: string)
    ensures BotResponse(message) == EmptyPrompt <==> IsBlank(message)
  {
    StripEmptyIffBlank(message);
  }

  /** Any message whose normalized form contains "this" is answered with
      the greeting, because "this" contains "hi". */
  lemma ThisIsAGreeting(message: string, i: nat)
    requires OccursAt(Normalized(message), "this", i)
    ensures BotResponse(message) == Greeting
  {
    var msg := Normalized(message);
    assert msg[i + 1..i + 3] == msg[i..i + 4][1..3];
    assert OccursAt(msg, "hi", i + 1);
    ContainsWitness(msg, "hi", i + 1);
  }

  /** A non-blank message that no rule matches is echoed back unstripped. */
  lemma Fallback(message: string)
    requires !IsBlank(message)
    requires forall k :: 0 <= k < |Rules| ==> !AnyIn(Rules[k].keywords, Normalized(message))
    ensures BotResponse(message) == Echo + message
  {
    FirstMatchSpec(Rules, Normalized(message));
    MatchesRuleTable(message);
  }
}
