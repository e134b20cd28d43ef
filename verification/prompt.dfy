/**
 The text the conversation-analysis endpoint sends to the language model:
 the transcript rendered as "Speaker: text" lines, the objectives rendered
 one per line, and the prompt that frames both.
 */
module Prompt {
  import opened Objectives

  /** One transcript entry as the endpoint receives it; `source` is "user" for the player. */
  datatype Message = Message(source: string, message: string)

  /** Whether a string is free of line breaks. */
  predicate SingleLine(s: string) {
    '\n' !in s
  }

  /** `Array.prototype.join('\n')`: the parts with one line break between neighbours. */
  function JoinLines(lines: seq<string>): (s: string)
    ensures |lines| == 0 ==> s == ""
    ensures |lines| == 1 ==> s == lines[0]
    ensures |lines| > 0 ==> lines[0] <= s
  {
    if |lines| == 0 then ""
    else if |lines| == 1 then lines[0]
    else lines[0] + "\n" + JoinLines(lines[1..])
  }

  /** Cuts a string at every line break; the inverse of `JoinLines` on single-line parts. */
  function SplitLines(s: string): (lines: seq<string>)
    ensures |lines| >= 1
  {
    if |s| == 0 then [""]
    else
      var rest := SplitLines(s[1..]);
      if s[0] == '\n' then [""] + rest
      else [[s[0]] + rest[0]] + rest[1..]
  }

  lemma {:induction false} SplitSingleLine(a: string)
    requires SingleLine(a)
    ensures SplitLines(a) == [a]
  {
    if |a| > 0 {
      SplitSingleLine(a[1..]);
      assert [a[0]] + a[1..] == a;
    }
  }

  lemma {:induction false} SplitAfterLine(a: string, b: string)
    requires SingleLine(a)
    ensures SplitLines(a + "\n" + b) == [a] + SplitLines(b)
  {
    var s := a + "\n" + b;
    if |a| == 0 {
      assert s[0] == '\n' && s[1..] == b;
    } else {
      assert s[1..] == a[1..] + "\n" + b;
      SplitAfterLine(a[1..], b);
      assert [a[0]] + a[1..] == a;
    }
  }

  /** Joining single-line parts and cutting the result at line breaks gives the parts back. */
  lemma {:induction false} SplitJoin(lines: seq<string>)
    requires |lines| > 0
    requires forall i :: 0 <= i < |lines| ==> SingleLine(lines[i])
    ensures SplitLines(JoinLines(lines)) == lines
  {
    if |lines| == 1 {
      SplitSingleLine(lines[0]);
    } else {
      SplitJoin(lines[1..]);
      SplitAfterLine(lines[0], JoinLines(lines[1..]));
      assert [lines[0]] + lines[1..] == lines;
    }
  }

  /** The speaker label: "User" for the player, the character's name for any other source. */
  function Label(source: string, characterName: string): string {
    if source == "user" then "User" else characterName
  }

  /** One transcript line: label, a colon and a space, then the message text. */
  function HistoryLine(m: Message, characterName: string): string {
    Label(m.source, characterName) + ": " + m.message
  }

  /** The transcript lines, one per message, in message order. */
  function HistoryLines(messages: seq<Message>, characterName: string): (lines: seq<string>)
    ensures |lines| == |messages|
  {
    seq(|messages|, i requires 0 <= i < |messages| => HistoryLine(messages[i], characterName))
  }

  /**
   The conversation history block of the prompt: empty exactly when there
   are no messages, and otherwise opening with the first message's line.
   */
  function History(messages: seq<Message>, characterName: string): (h: string)
    ensures h == "" <==> |messages| == 0
    ensures |messages| > 0 ==> HistoryLine(messages[0], characterName) <= h
  {
    var lines := HistoryLines(messages, characterName);
    if |messages| > 0 then
      assert lines[0] == HistoryLine(messages[0], characterName);
      assert |lines[0]| > 0;
      JoinLines(lines)
    else JoinLines(lines)
  }

  /** A character name whose lines cannot be mistaken for the player's. */
  predicate Distinguishable(characterName: string) {
    !("User: " <= characterName + ": ")
  }

  /** Reads a transcript line back: who spoke (the player or not) and the exact text. */
  function ParseHistoryLine(line: string, characterName: string): Option<(bool, string)> {
    if "User: " <= line then Some((true, line[|"User: "|..]))
    else if characterName + ": " <= line then Some((false, line[|characterName| + 2..]))
    else None
  }

  /**
   A transcript line carries the speaker and the message text unchanged:
   reading it back gives whether the source was "user" and the exact message.
   */
  lemma ParseHistoryLineRoundTrip(m: Message, characterName: string)
    requires Distinguishable(characterName)
    ensures ParseHistoryLine(HistoryLine(m, characterName), characterName)
         == Some((m.source == "user", m.message))
  {
    var line := HistoryLine(m, characterName);
    if m.source == "user" {
      assert line == "User: " + m.message;
      assert "User: " <= line;
      assert line[|"User: "|..] == m.message;
    } else {
      var head := characterName + ": ";
      assert line == head + m.message;
      assert head <= line;
      assert line[|characterName| + 2..] == m.message;
      NotPlayerLine(characterName, m.message);
    }
  }

  /** A line written under a distinguishable name never starts with the player's label. */
  lemma NotPlayerLine(characterName: string, text: string)
    requires Distinguishable(characterName)
    ensures !("User: " <= characterName + ": " + text)
  {
    var u, line := "User: ", characterName + ": " + text;
    if |characterName| < 4 {
      var k := |characterName|;
      assert line[k] == ':' && u[k] != ':';
    } else {
      assert (characterName + ": ")[..6] == line[..6];
    }
  }

  /**
   With single-line names and messages, the history has exactly one line per
   message, in message order, each the label and the text.
   */
  lemma HistoryLayout(messages: seq<Message>, characterName: string)
    requires |messages| > 0 && SingleLine(characterName)
    requires forall i :: 0 <= i < |messages| ==> SingleLine(messages[i].message)
    ensures |SplitLines(History(messages, characterName))| == |messages|
    ensures forall i :: 0 <= i < |messages| ==>
      SplitLines(History(messages, characterName))[i] == HistoryLine(messages[i], characterName)
  {
    var lines := HistoryLines(messages, characterName);
    forall i | 0 <= i < |lines|
      ensures SingleLine(lines[i])
    {
      var m := messages[i];
      assert lines[i] == Label(m.source, characterName) + ": " + m.message;
      assert SingleLine(Label(m.source, characterName));
    }
    SplitJoin(lines);
  }

  const IdOpen: string := "- ID: \""
  const DescriptionOpen: string := "\" | Description: "

  /** One line of the objective list: the quoted id, then the description. */
  function ObjectiveLine(o: Objective): string {
    IdOpen + o.id + DescriptionOpen + o.description
  }

  /** The objective lines, one per objective, in input order. */
  function ObjectiveLines(objs: seq<Objective>): (lines: seq<string>)
    ensures |lines| == |objs|
  {
    seq(|objs|, i requires 0 <= i < |objs| => ObjectiveLine(objs[i]))
  }

  /** The objective list block of the prompt. */
  function ObjectiveList(objs: seq<Objective>): string {
    JoinLines(ObjectiveLines(objs))
  }

  /** Splits at the first double quote: what comes before it, and the rest from it on. */
  function SplitAtQuote(s: string): (r: (string, string))
    ensures r.0 + r.1 == s
    ensures '"' !in r.0
    ensures |r.1| == 0 || r.1[0] == '"'
  {
    if |s| == 0 then ("", "")
    else if s[0] == '"' then ("", s)
    else
      var rest := SplitAtQuote(s[1..]);
      assert [s[0]] + rest.0 + rest.1 == s;
      ([s[0]] + rest.0, rest.1)
  }

  lemma {:induction false} SplitAtQuoteOf(a: string, b: string)
    requires '"' !in a
    ensures SplitAtQuote(a + "\"" + b) == (a, "\"" + b)
  {
    if |a| > 0 {
      assert (a + "\"" + b)[1..] == a[1..] + "\"" + b;
      SplitAtQuoteOf(a[1..], b);
      assert [a[0]] + a[1..] == a;
    } else {
      assert a + "\"" + b == "\"" + b;
      assert ("\"" + b)[0] == '"';
    }
  }

  /** Reads an objective line back into its id and description. */
  function ParseObjectiveLine(line: string): Option<(string, string)> {
    if IdOpen <= line then
      var (id, rest) := SplitAtQuote(line[|IdOpen|..]);
      if DescriptionOpen <= rest then Some((id, rest[|DescriptionOpen|..])) else None
    else None
  }

  /**
   An objective line carries the id and the description unchanged, so long
   as the id holds no double quote (the template does not escape it).
   */
  lemma ParseObjectiveLineRoundTrip(o: Objective)
    requires '"' !in o.id
    ensures ParseObjectiveLine(ObjectiveLine(o)) == Some((o.id, o.description))
  {
    var line := ObjectiveLine(o);
    var tail := DescriptionOpen[1..] + o.description;
    assert line == IdOpen + (o.id + "\"" + tail);
    assert line[|IdOpen|..] == o.id + "\"" + tail;
    SplitAtQuoteOf(o.id, tail);
    assert "\"" + tail == DescriptionOpen + o.description;
  }

  /**
   With single-line ids and descriptions, the objective list has exactly one
   line per objective, in input order.
   */
  lemma ObjectiveListLayout(objs: seq<Objective>)
    requires |objs| > 0
    requires forall i :: 0 <= i < |objs| ==> SingleLine(objs[i].id) && SingleLine(objs[i].description)
    ensures SplitLines(ObjectiveList(objs)) == ObjectiveLines(objs)
  {
    var lines := ObjectiveLines(objs);
    forall i | 0 <= i < |lines|
      ensures SingleLine(lines[i])
    {
      assert lines[i] == IdOpen + objs[i].id + DescriptionOpen + objs[i].description;
    }
    SplitJoin(lines);
  }

  /** The list shows ids and descriptions only: completion flags do not reach the prompt. */
  lemma ObjectiveListIgnoresCompletion(a: seq<Objective>, b: seq<Objective>)
    requires |a| == |b|
    requires forall i :: 0 <= i < |a| ==> a[i].id == b[i].id && a[i].description == b[i].description
    ensures ObjectiveList(a) == ObjectiveList(b)
  {
    assert ObjectiveLines(a) == ObjectiveLines(b);
  }

  const Preamble: string :=
    "You are analyzing a conversation to determine if specific objectives have been achieved"
    + " and what emotion the AI character should display.\n\nCharacter: "
  const ConversationHeading: string := "\n\nConversation:\n"
  const ObjectivesHeading: string := "\n\nObjectives to check:\n"
  const Instructions: string :=
    "\n\nBased on the conversation, respond with a JSON object with the following structure:\n"
    + "{\n"
    + "  \"objectives\": [\n"
    + "    { \"id\": \"listen\", \"completed\": true, \"reason\": \"brief explanation\" },\n"
    + "    { \"id\": \"acknowledge\", \"completed\": false, \"reason\": \"brief explanation\" }\n"
    + "  ],\n"
    + "  \"emotion\": \"neutral\" | \"happy\" | \"sad\" | \"mad\",\n"
    + "  \"emotionReason\": \"brief explanation of why this emotion\"\n"
    + "}\n"
    + "\n"
    + "IMPORTANT: You MUST return an entry for EVERY objective listed above. Use the exact \"id\" values provided.\n"
    + "\n"
    + "Guidelines:\n"
    + "- Mark an objective as completed if there's clear evidence in the conversation that it has been achieved\n"
    + "- For emotion: Choose \"happy\" if character is pleased/satisfied, \"sad\" if disappointed/upset,"
    + " \"mad\" if frustrated/angry, \"neutral\" for normal conversation\n"
    + "- Be strict but fair in your assessment\n"
    + "- Base your analysis only on what has actually been said in the conversation\n"
    + "- Return results for ALL objectives, even if not completed yet"

  /** The analysis prompt for a character, a transcript and an objective list. */
  function AnalysisPrompt(characterName: string, messages: seq<Message>, objs: seq<Objective>): string {
    Preamble + characterName + ConversationHeading + History(messages, characterName)
      + ObjectivesHeading + ObjectiveList(objs) + Instructions
  }

  /** `s` holds `part` starting at position `at`. */
  predicate OccursAt(s: string, part: string, at: nat) {
    at + |part| <= |s| && s[at..at + |part|] == part
  }

  /**
   The prompt holds the character name, the history and the objective list
   verbatim, in that order, each after its heading, and ends with the fixed
   instructions.
   */
  lemma PromptLayout(characterName: string, messages: seq<Message>, objs: seq<Objective>)
    ensures var p, h, l := AnalysisPrompt(characterName, messages, objs), History(messages, characterName), ObjectiveList(objs);
      var atName := |Preamble|;
      var atHistory := atName + |characterName| + |ConversationHeading|;
      var atList := atHistory + |h| + |ObjectivesHeading|;
      && OccursAt(p, Preamble, 0)
      && OccursAt(p, characterName, atName)
      && OccursAt(p, ConversationHeading, atName + |characterName|)
      && OccursAt(p, h, atHistory)
      && OccursAt(p, ObjectivesHeading, atHistory + |h|)
      && OccursAt(p, l, atList)
      && OccursAt(p, Instructions, atList + |l|)
      && |p| == atList + |l| + |Instructions|
  {
    ConcatLayout(Preamble, characterName, ConversationHeading, History(messages, characterName),
                 ObjectivesHeading, ObjectiveList(objs), Instructions);
  }

  lemma ConcatLayout(s0: string, s1: string, s2: string, s3: string, s4: string, s5: string, s6: string)
    ensures var p := s0 + s1 + s2 + s3 + s4 + s5 + s6;
      var a1 := |s0|;
      var a2 := a1 + |s1|;
      var a3 := a2 + |s2|;
      var a4 := a3 + |s3|;
      var a5 := a4 + |s4|;
      var a6 := a5 + |s5|;
      && OccursAt(p, s0, 0) && OccursAt(p, s1, a1) && OccursAt(p, s2, a2) && OccursAt(p, s3, a3)
      && OccursAt(p, s4, a4) && OccursAt(p, s5, a5) && OccursAt(p, s6, a6) && |p| == a6 + |s6|
  {
    assert s0[0..|s0|] == s0;
    Extend(s0, s1);
    Extend(s0 + s1, s2);
    Extend(s0 + s1 + s2, s3);
    Extend(s0 + s1 + s2 + s3, s4);
    Extend(s0 + s1 + s2 + s3 + s4, s5);
    Extend(s0 + s1 + s2 + s3 + s4 + s5, s6);
  }

  /** Appending keeps every occurrence where it was and places the new part right after. */
  lemma Extend(p: string, s: string)
    ensures OccursAt(p + s, s, |p|)
    ensures forall part: string, at: nat :: OccursAt(p, part, at) ==> OccursAt(p + s, part, at)
  {
    assert (p + s)[|p|..|p| + |s|] == s;
    forall part: string, at: nat | OccursAt(p, part, at)
      ensures OccursAt(p + s, part, at)
    {
      assert (p + s)[at..at + |part|] == p[at..at + |part|];
    }
  }
}
