/**
 Reassembling streamed chat responses (bench/agentbench.py, _ChoiceAssembly and
 Assembly): text and tool calls arrive in deltas, per choice.
 */
module Assembly {
  import opened Common

  // An argument value of a tool-call delta; an object arrives already rendered as
  // JSON text, and values of other types are ignored.
  datatype Arguments = Absent | Text(text: string) | Object(json: string) | Ignored

  datatype ToolDelta = ToolDelta(
    index: Option<int>,
    id: Option<string>,
    kind: Option<string>,
    name: Option<string>,
    arguments: Arguments,
    functionInput: Option<Arguments>,
    input: Arguments)

  // The delta or message of a choice; fields that are not strings are None.
  datatype Node = Node(
    content: Option<string>,
    reasoningContent: Option<string>,
    reasoning: Option<string>,
    toolCalls: seq<Option<ToolDelta>>)

  // `delta` is None when it is missing, empty or not an object.
  datatype Choice = Choice(index: Option<int>, finish: Option<string>, delta: Option<Node>, message: Option<Node>)

  datatype Event = Event(usage: map<string, int>, choices: seq<Option<Choice>>)

  datatype Call = Call(id: string, kind: string, name: string, arguments: string)

  const NEW_CALL := Call("", "function", "", "")

  const EMPTY_NODE := Node(None, None, None, [])

  // ----- One choice

  datatype State = State(content: seq<string>, reasoning: seq<string>, calls: map<int, Call>, finish: Option<string>)

  const EMPTY := State([], [], map[], None)

  function Join(parts: seq<string>): string {
    if parts == [] then "" else Join(parts[..|parts| - 1]) + parts[|parts| - 1]
  }

  // What the caller gets; calls are listed in index order.
  datatype Outcome = Outcome(content: string, reasoning: string, calls: map<int, Call>, finish: Option<string>)

  function OutcomeOf(s: State): Outcome {
    Outcome(Join(s.content), Join(s.reasoning), s.calls, s.finish)
  }

  function NodeOf(choice: Choice): Node {
    if choice.delta.Some? then choice.delta.value
    else if choice.message.Some? then choice.message.value
    else EMPTY_NODE
  }

  function AddPart(parts: seq<string>, part: Option<string>): seq<string> {
    if part.Some? && part.value != "" then parts + [part.value] else parts
  }

  function OrEmpty(x: Option<string>): string { if x.Some? then x.value else "" }

  function ArgumentText(d: ToolDelta): string {
    var a := if d.arguments.Absent? then (if d.functionInput.Some? then d.functionInput.value else d.input) else d.arguments;
    match a
    case Text(t) => t
    case Object(j) => j
    case _ => ""
  }

  function CallIndex(d: ToolDelta, position: nat): int { if d.index.Some? then d.index.value else position }

  function ExtendCall(c: Call, d: ToolDelta): Call {
    Call(c.id + OrEmpty(d.id),
         if d.kind.Some? then d.kind.value else c.kind,
         c.name + OrEmpty(d.name),
         c.arguments + ArgumentText(d))
  }

  // The calls after the first k tool-call deltas.
  function AddCalls(calls: map<int, Call>, deltas: seq<Option<ToolDelta>>, k: nat): map<int, Call>
    requires k <= |deltas|
  {
    if k == 0 then calls
    else
      var before := AddCalls(calls, deltas, k - 1);
      match deltas[k - 1]
      case None => before
      case Some(d) =>
        var i := CallIndex(d, k - 1);
        before[i := ExtendCall(if i in before then before[i] else NEW_CALL, d)]
  }

  function FeedChoice(s: State, choice: Choice): State {
    var node := NodeOf(choice);
    State(AddPart(s.content, node.content),
          AddPart(AddPart(s.reasoning, node.reasoningContent), node.reasoning),
          AddCalls(s.calls, node.toolCalls, |node.toolCalls|),
          if choice.finish.Some? then choice.finish else s.finish)
  }

  method UpdateCall(c: Call, d: ToolDelta) returns (call: Call)
    ensures call == ExtendCall(c, d)
  {
    call := c;
    if d.id.Some? { call := call.(id := call.id + d.id.value); }
    if d.kind.Some? { call := call.(kind := d.kind.value); }
    if d.name.Some? { call := call.(name := call.name + d.name.value); }
    var arguments := d.arguments;
    if arguments.Absent? {
      arguments := if d.functionInput.Some? then d.functionInput.value else d.input;
    }
    if arguments.Text? {
      call := call.(arguments := call.arguments + arguments.text);
    } else if arguments.Object? {
      call := call.(arguments := call.arguments + arguments.json);
    }
    assert c.id + "" == c.id && c.name + "" == c.name && c.arguments + "" == c.arguments;
  }

  predicate HasText(node: Node) {
    OrEmpty(node.content) != "" || OrEmpty(node.reasoningContent) != "" || OrEmpty(node.reasoning) != ""
  }

  // The delta brought output, which is when its arrival time is kept.
  predicate Generates(node: Node) {
    HasText(node) || exists k :: 0 <= k < |node.toolCalls| && node.toolCalls[k].Some?
  }

  class ChoiceAssembly {
    var content: seq<string>
    var reasoning: seq<string>
    var calls: map<int, Call>
    var finish: Option<string>

    function View(): State
      reads this
    {
      State(content, reasoning, calls, finish)
    }

    constructor ()
      ensures View() == EMPTY
    {
      content, reasoning, calls, finish := [], [], map[], None;
    }

    method Feed(choice: Choice) returns (generated: bool)
      modifies this
      ensures View() == FeedChoice(old(View()), choice)
      ensures generated <==> Generates(NodeOf(choice))
    {
      if choice.finish.Some? { finish := choice.finish; }
      var node := NodeOf(choice);
      generated := false;
      if node.content.Some? && node.content.value != "" {
        content := content + [node.content.value];
        generated := true;
      }
      if node.reasoningContent.Some? && node.reasoningContent.value != "" {
        reasoning := reasoning + [node.reasoningContent.value];
        generated := true;
      }
      if node.reasoning.Some? && node.reasoning.value != "" {
        reasoning := reasoning + [node.reasoning.value];
        generated := true;
      }
      var called := FeedCalls(node.toolCalls);
      generated := generated || called;
    }

    method FeedCalls(deltas: seq<Option<ToolDelta>>) returns (any: bool)
      modifies this`calls
      ensures calls == AddCalls(old(calls), deltas, |deltas|)
      ensures any <==> exists k :: 0 <= k < |deltas| && deltas[k].Some?
    {
      hide ExtendCall;
      any := false;
      for position := 0 to |deltas|
        invariant calls == AddCalls(old(calls), deltas, position)
        invariant any <==> exists k :: 0 <= k < position && deltas[k].Some?
      {
        if deltas[position].None? { continue; }
        var d := deltas[position].value;
        var index := if d.index.Some? then d.index.value else position;
        var call := UpdateCall(if index in calls then calls[index] else NEW_CALL, d);
        calls := calls[index := call];
        any := true;
      }
    }
  }

  // ----- Deltas may be split

  lemma {:induction false} JoinPart(parts: seq<string>, part: Option<string>)
    ensures Join(AddPart(parts, part)) == Join(parts) + OrEmpty(part)
  {
    if part.Some? && part.value != "" {
      assert (parts + [part.value])[..|parts|] == parts;
    } else {
      assert Join(parts) + "" == Join(parts);
    }
  }

  // One more delta, on joined texts.
  function FeedOn(o: Outcome, choice: Choice): Outcome {
    var node := NodeOf(choice);
    Outcome(o.content + OrEmpty(node.content),
            (o.reasoning + OrEmpty(node.reasoningContent)) + OrEmpty(node.reasoning),
            AddCalls(o.calls, node.toolCalls, |node.toolCalls|),
            if choice.finish.Some? then choice.finish else o.finish)
  }

  lemma {:induction false} FeedOutcome(s: State, choice: Choice)
    ensures OutcomeOf(FeedChoice(s, choice)) == FeedOn(OutcomeOf(s), choice)
  {
    var node := NodeOf(choice);
    JoinPart(s.content, node.content);
    JoinPart(s.reasoning, node.reasoningContent);
    JoinPart(AddPart(s.reasoning, node.reasoningContent), node.reasoning);
  }

  // The head of a split delta: same choice, only this node, no finish reason.
  function Part(choice: Choice, node: Node): Choice { Choice(choice.index, None, Some(node), None) }

  // Two deltas have the effect of one.
  ghost predicate SameAs(a: Choice, b: Choice, whole: Choice) {
    forall s: State :: OutcomeOf(FeedChoice(FeedChoice(s, a), b)) == OutcomeOf(FeedChoice(s, whole))
  }

  lemma {:induction false} SameOnOutcomes(a: Choice, b: Choice, whole: Choice)
    requires forall o: Outcome :: FeedOn(FeedOn(o, a), b) == FeedOn(o, whole)
    ensures SameAs(a, b, whole)
  {
    hide FeedChoice, FeedOn, OutcomeOf;
    forall s: State
      ensures OutcomeOf(FeedChoice(FeedChoice(s, a), b)) == OutcomeOf(FeedChoice(s, whole))
    {
      FeedOutcome(s, a);
      FeedOutcome(FeedChoice(s, a), b);
      FeedOutcome(s, whole);
    }
  }

  lemma {:induction false} ContentSplits(choice: Choice, x: string, y: string)
    requires choice.delta.Some? && choice.delta.value.content == Some(x + y)
    ensures SameAs(Part(choice, EMPTY_NODE.(content := Some(x))),
                   choice.(delta := Some(choice.delta.value.(content := Some(y)))), choice)
  {
    var a := Part(choice, EMPTY_NODE.(content := Some(x)));
    var b := choice.(delta := Some(choice.delta.value.(content := Some(y))));
    forall o: Outcome
      ensures FeedOn(FeedOn(o, a), b) == FeedOn(o, choice)
    {
      NoCalls(o.calls);
      hide AddCalls;
      assert (o.content + x) + y == o.content + (x + y);
      assert (o.reasoning + "") + "" == o.reasoning;
    }
    SameOnOutcomes(a, b, choice);
  }

  lemma {:induction false} ReasoningContentSplits(choice: Choice, x: string, y: string)
    requires choice.delta.Some? && choice.delta.value.reasoningContent == Some(x + y)
    ensures SameAs(Part(choice, EMPTY_NODE.(reasoningContent := Some(x))),
                   choice.(delta := Some(choice.delta.value.(reasoningContent := Some(y)))), choice)
  {
    var a := Part(choice, EMPTY_NODE.(reasoningContent := Some(x)));
    var b := choice.(delta := Some(choice.delta.value.(reasoningContent := Some(y))));
    forall o: Outcome
      ensures FeedOn(FeedOn(o, a), b) == FeedOn(o, choice)
    {
      NoCalls(o.calls);
      hide AddCalls;
      assert (o.reasoning + x) + "" == o.reasoning + x;
      assert (o.reasoning + x) + y == o.reasoning + (x + y);
      assert o.content + "" == o.content;
    }
    SameOnOutcomes(a, b, choice);
  }

  // The alternative reasoning field follows the first one, which stays in the head.
  lemma {:induction false} ReasoningSplits(choice: Choice, x: string, y: string)
    requires choice.delta.Some? && choice.delta.value.reasoning == Some(x + y)
    ensures var node := choice.delta.value;
            SameAs(Part(choice, EMPTY_NODE.(reasoningContent := node.reasoningContent, reasoning := Some(x))),
                   choice.(delta := Some(node.(reasoningContent := None, reasoning := Some(y)))), choice)
  {
    var node := choice.delta.value;
    var a := Part(choice, EMPTY_NODE.(reasoningContent := node.reasoningContent, reasoning := Some(x)));
    var b := choice.(delta := Some(node.(reasoningContent := None, reasoning := Some(y))));
    forall o: Outcome
      ensures FeedOn(FeedOn(o, a), b) == FeedOn(o, choice)
    {
      NoCalls(o.calls);
      hide AddCalls;
      var r := o.reasoning + OrEmpty(node.reasoningContent);
      assert (r + x) + "" == r + x;
      assert (r + x) + y == r + (x + y);
      assert o.content + "" == o.content;
    }
    SameOnOutcomes(a, b, choice);
  }

  lemma {:induction false} NoCalls(calls: map<int, Call>)
    ensures AddCalls(calls, [], 0) == calls
  {}

  predicate Indexed(deltas: seq<Option<ToolDelta>>) {
    forall i :: 0 <= i < |deltas| && deltas[i].Some? ==> deltas[i].value.index.Some?
  }

  // Where the calls after a cut keep their index: the cut is in the first call, or
  // every call from the cut on names its index.
  predicate CallsStay(pre: seq<Option<ToolDelta>>, d: ToolDelta, post: seq<Option<ToolDelta>>) {
    pre == [] || (d.index.Some? && Indexed(post))
  }

  // Tool calls that name their index may be spread over events.
  lemma {:induction false} CallsConcat(calls: map<int, Call>, a: seq<Option<ToolDelta>>, b: seq<Option<ToolDelta>>, k: nat)
    requires k <= |b| && Indexed(b)
    ensures AddCalls(calls, a + b, |a| + k) == AddCalls(AddCalls(calls, a, |a|), b, k)
  {
    hide ExtendCall;
    if k == 0 {
      CallsPrefix(calls, a, b, |a|);
    } else {
      CallsConcat(calls, a, b, k - 1);
      assert (a + b)[|a| + k - 1] == b[k - 1];
    }
  }

  lemma {:induction false} CallsPrefix(calls: map<int, Call>, a: seq<Option<ToolDelta>>, b: seq<Option<ToolDelta>>, k: nat)
    requires k <= |a|
    ensures AddCalls(calls, a + b, k) == AddCalls(calls, a, k)
  {
    hide ExtendCall;
    if k > 0 {
      CallsPrefix(calls, a, b, k - 1);
      assert (a + b)[k - 1] == a[k - 1];
    }
  }

  // The same calls after heads of the same length and effect.
  lemma {:induction false} CallsAfter(calls: map<int, Call>, a: seq<Option<ToolDelta>>, others: map<int, Call>,
                                      b: seq<Option<ToolDelta>>, post: seq<Option<ToolDelta>>, k: nat)
    requires |a| == |b| && AddCalls(calls, a, |a|) == AddCalls(others, b, |b|) && k <= |post|
    ensures AddCalls(calls, a + post, |a| + k) == AddCalls(others, b + post, |b| + k)
  {
    hide ExtendCall;
    if k == 0 {
      CallsPrefix(calls, a, post, |a|);
      CallsPrefix(others, b, post, |b|);
    } else {
      CallsAfter(calls, a, others, b, post, k - 1);
      assert (a + post)[|a| + k - 1] == post[k - 1] == (b + post)[|b| + k - 1];
    }
  }

  // The rest of a cut call: its index and the rest of its argument.
  function Rest(d: ToolDelta, y: string): ToolDelta { ToolDelta(d.index, None, None, None, Text(y), None, Absent) }

  // A string argument may arrive in two deltas of the same call.
  lemma {:induction false} ArgumentsSplit(calls: map<int, Call>, d: ToolDelta, x: string, y: string)
    requires d.arguments == Text(x + y)
    ensures AddCalls(AddCalls(calls, [Some(d.(arguments := Text(x)))], 1), [Some(Rest(d, y))], 1)
         == AddCalls(calls, [Some(d)], 1)
  {
    var i := CallIndex(d, 0);
    var c := if i in calls then calls[i] else NEW_CALL;
    var head, tail := d.(arguments := Text(x)), Rest(d, y);
    var after := ExtendCall(c, head);
    assert AddCalls(calls, [Some(head)], 0) == calls && AddCalls(calls, [Some(d)], 0) == calls;
    assert AddCalls(calls, [Some(head)], 1) == calls[i := after];
    assert ExtendCall(after, tail) == ExtendCall(c, d) by {
      assert after.id + "" == after.id && after.name + "" == after.name;
      assert (c.arguments + x) + y == c.arguments + (x + y);
    }
    var middle := calls[i := after];
    assert AddCalls(middle, [Some(tail)], 0) == middle;
    assert calls[i := after][i := ExtendCall(c, d)] == calls[i := ExtendCall(c, d)];
  }

  // One call's string argument may be cut in two wherever the calls from the cut on
  // keep their index: the earlier calls stay in the head, the later ones follow the cut.
  lemma {:induction false} ToolArgumentsSplit(choice: Choice, pre: seq<Option<ToolDelta>>, d: ToolDelta,
                                              post: seq<Option<ToolDelta>>, x: string, y: string)
    requires choice.delta.Some? && choice.delta.value.toolCalls == pre + [Some(d)] + post
    requires d.arguments == Text(x + y) && CallsStay(pre, d, post)
    ensures SameAs(Part(choice, EMPTY_NODE.(toolCalls := pre + [Some(d.(arguments := Text(x)))])),
                   choice.(delta := Some(choice.delta.value.(toolCalls := [Some(Rest(d, y))] + post))), choice)
  {
    var head, tail := Some(d.(arguments := Text(x))), Some(Rest(d, y));
    var a := Part(choice, EMPTY_NODE.(toolCalls := pre + [head]));
    var b := choice.(delta := Some(choice.delta.value.(toolCalls := [tail] + post)));
    forall o: Outcome
      ensures FeedOn(FeedOn(o, a), b) == FeedOn(o, choice)
    {
      CutCalls(o.calls, pre, d, post, x, y);
      hide AddCalls;
      assert o.content + "" == o.content && (o.reasoning + "") + "" == o.reasoning;
    }
    SameOnOutcomes(a, b, choice);
  }

  lemma {:induction false} CutCalls(calls: map<int, Call>, pre: seq<Option<ToolDelta>>, d: ToolDelta,
                                    post: seq<Option<ToolDelta>>, x: string, y: string)
    requires d.arguments == Text(x + y) && CallsStay(pre, d, post)
    ensures var first := pre + [Some(d.(arguments := Text(x)))];
            var second := [Some(Rest(d, y))] + post;
            var whole := pre + [Some(d)] + post;
            AddCalls(AddCalls(calls, first, |first|), second, |second|) == AddCalls(calls, whole, |whole|)
  {
    hide AddCalls;
    var head, tail := [Some(d.(arguments := Text(x)))], [Some(Rest(d, y))];
    if pre == [] {
      assert pre + head == head && pre + [Some(d)] + post == [Some(d)] + post;
      ArgumentsSplit(calls, d, x, y);
      CallsAfter(AddCalls(calls, head, 1), tail, calls, [Some(d)], post, |post|);
    } else {
      var here := AddCalls(calls, pre, |pre|);
      CallsConcat(calls, pre, head, 1);
      CallsConcat(AddCalls(here, head, 1), tail, post, |post|);
      ArgumentsSplit(here, d, x, y);
      CallsConcat(calls, pre, [Some(d)], 1);
      CallsConcat(calls, pre + [Some(d)], post, |post|);
    }
  }

  // ----- Texts that move

  // A text with the index it names, if any; otherwise its position is its index.
  datatype Piece = Piece(index: Option<int>, text: string)

  function Place(p: Piece, position: nat): int { if p.index.Some? then p.index.value else position }

  // What one piece says under an index.
  function Heard(p: Option<Piece>, position: nat, i: int): string {
    if p.Some? && Place(p.value, position) == i then p.value.text else ""
  }

  // What is said under an index by pieces at the positions from `at` on.
  function Said(pieces: seq<Option<Piece>>, at: nat, i: int): string {
    if pieces == [] then ""
    else Said(pieces[..|pieces| - 1], at, i) + Heard(pieces[|pieces| - 1], at + |pieces| - 1, i)
  }

  // No piece depends on its position for where its text goes.
  predicate Fixed(pieces: seq<Option<Piece>>) {
    forall k :: 0 <= k < |pieces| ==> !Loose(pieces[k])
  }

  predicate Loose(p: Option<Piece>) { p.Some? && p.value.index.None? && p.value.text != "" }

  lemma {:induction false} Associate(x: string, y: string, z: string)
    ensures (x + y) + z == x + (y + z)
    ensures x + "" == x
  {}

  lemma {:induction false} SaidConcat(a: seq<Option<Piece>>, b: seq<Option<Piece>>, at: nat, i: int)
    ensures Said(a + b, at, i) == Said(a, at, i) + Said(b, at + |a|, i)
  {
    hide Heard;
    if b == [] {
      assert a + b == a;
      Associate(Said(a, at, i), "", "");
    } else {
      var n := |b| - 1;
      assert (a + b)[..|a| + n] == a + b[..n] && (a + b)[|a| + n] == b[n];
      SaidConcat(a, b[..n], at, i);
      Associate(Said(a, at, i), Said(b[..n], at + |a|, i), Heard(b[n], at + |a| + n, i));
    }
  }

  lemma {:induction false} FixedStays(pieces: seq<Option<Piece>>, at: nat, i: int)
    requires Fixed(pieces)
    ensures Said(pieces, at, i) == Said(pieces, 0, i)
  {
    if pieces != [] {
      assert !Loose(pieces[|pieces| - 1]);
      FixedStays(pieces[..|pieces| - 1], at, i);
    }
  }

  // Length of what named pieces say.
  function Named(pieces: seq<Option<Piece>>, i: int): nat {
    if pieces == [] then 0
    else
      var p := pieces[|pieces| - 1];
      Named(pieces[..|pieces| - 1], i) + (if p.Some? && p.value.index == Some(i) then |p.value.text| else 0)
  }

  function Unnamed(pieces: seq<Option<Piece>>, k: int): nat {
    if 0 <= k < |pieces| && pieces[k].Some? && pieces[k].value.index.None? then |pieces[k].value.text| else 0
  }

  lemma {:induction false} SaidLength(pieces: seq<Option<Piece>>, at: nat, i: int)
    ensures |Said(pieces, at, i)| == Named(pieces, i) + Unnamed(pieces, i - at)
  {
    if pieces != [] {
      SaidLength(pieces[..|pieces| - 1], at, i);
    }
  }

  lemma {:induction false} FirstLoose(pieces: seq<Option<Piece>>) returns (m: nat)
    requires !Fixed(pieces)
    ensures m < |pieces| && Loose(pieces[m]) && forall k :: 0 <= k < m ==> !Loose(pieces[k])
  {
    m := 0;
    while !Loose(pieces[m])
      invariant m < |pieces| && forall k :: 0 <= k < m ==> !Loose(pieces[k])
      decreases |pieces| - m
    {
      if m + 1 == |pieces| { assert Fixed(pieces); }
      m := m + 1;
    }
  }

  ghost predicate StaysPut(pieces: seq<Option<Piece>>, at: nat) {
    forall i :: Said(pieces, at, i) == Said(pieces, 0, i)
  }

  // Moving pieces changes what is said somewhere exactly if a text depends on its
  // position.
  lemma {:induction false} MovingShows(pieces: seq<Option<Piece>>, at: nat)
    requires at > 0
    ensures StaysPut(pieces, at) <==> Fixed(pieces)
  {
    if Fixed(pieces) {
      forall i
        ensures Said(pieces, at, i) == Said(pieces, 0, i)
      {
        FixedStays(pieces, at, i);
      }
    } else {
      var m := FirstLoose(pieces);
      SaidLength(pieces, 0, m);
      SaidLength(pieces, at, m);
      assert m - at >= 0 ==> !Loose(pieces[m - at]);
      assert Said(pieces, at, m) != Said(pieces, 0, m);
    }
  }

  // Two lists say under every index what one says.
  ghost predicate SaysSame(first: seq<Option<Piece>>, second: seq<Option<Piece>>, whole: seq<Option<Piece>>) {
    forall i :: Said(first, 0, i) + Said(second, 0, i) == Said(whole, 0, i)
  }

  // A text cut in two, with everything after the cut moved to the front of a second
  // list: what is said stays the same under every index exactly if nothing came before
  // the cut or no text from the cut on depends on its position.
  lemma {:induction false} CutPieces(pre: seq<Option<Piece>>, index: Option<int>, x: string, y: string, post: seq<Option<Piece>>)
    ensures var whole := pre + [Some(Piece(index, x + y))] + post;
            var first, second := pre + [Some(Piece(index, x))], [Some(Piece(index, y))] + post;
            SaysSame(first, second, whole) <==> pre == [] || Fixed(second)
  {
    var whole := pre + [Some(Piece(index, x + y))] + post;
    var first, second := pre + [Some(Piece(index, x))], [Some(Piece(index, y))] + post;
    hide Said;
    forall i
      ensures Said(first, 0, i) + Said(second, 0, i) == Said(whole, 0, i) <==> Said(second, |pre|, i) == Said(second, 0, i)
    {
      CutText(pre, index, x, y, post, i);
      Cancel(Said(first, 0, i), Said(second, 0, i), Said(second, |pre|, i));
    }
    assert SaysSame(first, second, whole) <==> StaysPut(second, |pre|);
    if pre != [] { MovingShows(second, |pre|); }
  }

  lemma {:induction false} Cancel(a: string, b: string, c: string)
    ensures a + b == a + c <==> b == c
  {
    if a + b == a + c {
      assert b == (a + b)[|a|..] && c == (a + c)[|a|..];
    }
  }

  lemma {:induction false} CutText(pre: seq<Option<Piece>>, index: Option<int>, x: string, y: string, post: seq<Option<Piece>>, i: int)
    ensures Said(pre + [Some(Piece(index, x + y))] + post, 0, i)
         == Said(pre + [Some(Piece(index, x))], 0, i) + Said([Some(Piece(index, y))] + post, |pre|, i)
  {
    hide Said;
    var n := |pre|;
    SaidConcat(pre + [Some(Piece(index, x + y))], post, 0, i);
    SaidConcat(pre, [Some(Piece(index, x + y))], 0, i);
    SaidConcat(pre, [Some(Piece(index, x))], 0, i);
    SaidConcat([Some(Piece(index, y))], post, n, i);
    SaidOne(Piece(index, x + y), n, i);
    SaidOne(Piece(index, x), n, i);
    SaidOne(Piece(index, y), n, i);
    if Place(Piece(index, x), n) == i {
      Regroup(Said(pre, 0, i), x, y, Said(post, n + 1, i));
    } else {
      Regroup(Said(pre, 0, i), "", "", Said(post, n + 1, i));
    }
  }

  lemma {:induction false} Regroup(a: string, x: string, y: string, b: string)
    ensures (a + (x + y)) + b == (a + x) + (y + b)
    ensures "" + "" == ""
  {}

  lemma {:induction false} SaidOne(p: Piece, at: nat, i: int)
    ensures Said([Some(p)], at, i) == if Place(p, at) == i then p.text else ""
  {
    assert [Some(p)][..0] == [];
    assert "" + p.text == p.text;
  }

  // ----- Where the argument of a cut call goes

  function CallPieces(deltas: seq<Option<ToolDelta>>): (pieces: seq<Option<Piece>>)
    ensures |pieces| == |deltas|
    ensures forall k :: 0 <= k < |deltas| ==>
              pieces[k] == if deltas[k].Some? then Some(Piece(deltas[k].value.index, ArgumentText(deltas[k].value))) else None
  {
    seq(|deltas|, k requires 0 <= k < |deltas| =>
      if deltas[k].Some? then Some(Piece(deltas[k].value.index, ArgumentText(deltas[k].value))) else None)
  }

  ghost predicate SameArguments(a: map<int, Call>, b: map<int, Call>) {
    forall i :: ArgumentsAt(a, i) == ArgumentsAt(b, i)
  }

  function ArgumentsAt(calls: map<int, Call>, i: int): string { if i in calls then calls[i].arguments else "" }

  lemma {:induction false} ArgumentsStep(calls: map<int, Call>, deltas: seq<Option<ToolDelta>>, k: nat, i: int)
    requires 0 < k <= |deltas|
    ensures ArgumentsAt(AddCalls(calls, deltas, k), i)
         == ArgumentsAt(AddCalls(calls, deltas, k - 1), i) + Heard(CallPieces(deltas)[k - 1], k - 1, i)
  {
    hide ArgumentText;
    var before := AddCalls(calls, deltas, k - 1);
    assert ArgumentsAt(before, i) + "" == ArgumentsAt(before, i);
  }

  lemma {:induction false} ArgumentsSaid(calls: map<int, Call>, deltas: seq<Option<ToolDelta>>, k: nat, i: int)
    requires k <= |deltas|
    ensures ArgumentsAt(AddCalls(calls, deltas, k), i) == ArgumentsAt(calls, i) + Said(CallPieces(deltas)[..k], 0, i)
  {
    if k == 0 {
      Associate(ArgumentsAt(calls, i), "", "");
    } else {
      hide ArgumentsAt, AddCalls, CallPieces, Heard;
      ArgumentsSaid(calls, deltas, k - 1, i);
      ArgumentsStep(calls, deltas, k, i);
      var pieces := CallPieces(deltas);
      assert pieces[..k][..k - 1] == pieces[..k - 1];
      Associate(ArgumentsAt(calls, i), Said(pieces[..k - 1], 0, i), Heard(pieces[k - 1], k - 1, i));
    }
  }

  // The lists of a cut tool-call list, as pieces.
  lemma {:induction false} PiecesOfCut(pre: seq<Option<ToolDelta>>, d: ToolDelta, post: seq<Option<ToolDelta>>, x: string, y: string)
    requires d.arguments == Text(x + y)
    ensures CallPieces(pre + [Some(d.(arguments := Text(x)))]) == CallPieces(pre) + [Some(Piece(d.index, x))]
    ensures CallPieces([Some(Rest(d, y))] + post) == [Some(Piece(d.index, y))] + CallPieces(post)
    ensures CallPieces(pre + [Some(d)] + post) == CallPieces(pre) + [Some(Piece(d.index, x + y))] + CallPieces(post)
  {}

  // For any tool-call list and any cut: the arguments of every call come out as sent
  // exactly if the cut is in the first call or no argument text from the cut on depends
  // on its position.
  lemma {:induction false} ArgumentsMove(calls: map<int, Call>, pre: seq<Option<ToolDelta>>, d: ToolDelta,
                                         post: seq<Option<ToolDelta>>, x: string, y: string)
    requires d.arguments == Text(x + y)
    ensures var first, second := pre + [Some(d.(arguments := Text(x)))], [Some(Rest(d, y))] + post;
            var whole := pre + [Some(d)] + post;
            var split := AddCalls(AddCalls(calls, first, |first|), second, |second|);
            SameArguments(split, AddCalls(calls, whole, |whole|)) <==> pre == [] || Fixed(CallPieces(second))
  {
    hide AddCalls, CallPieces, Said, Fixed, ArgumentsAt;
    var first, second := pre + [Some(d.(arguments := Text(x)))], [Some(Rest(d, y))] + post;
    var whole := pre + [Some(d)] + post;
    var between := AddCalls(calls, first, |first|);
    PiecesOfCut(pre, d, post, x, y);
    CutPieces(CallPieces(pre), d.index, x, y, CallPieces(post));
    forall i
      ensures ArgumentsAt(AddCalls(between, second, |second|), i) == ArgumentsAt(AddCalls(calls, whole, |whole|), i) <==>
              Said(CallPieces(first), 0, i) + Said(CallPieces(second), 0, i) == Said(CallPieces(whole), 0, i)
    {
      ArgumentsOfCut(calls, first, second, whole, i);
    }
    SamePieces(CallPieces(pre), pre);
  }

  lemma {:induction false} SamePieces(pieces: seq<Option<Piece>>, deltas: seq<Option<ToolDelta>>)
    requires pieces == CallPieces(deltas)
    ensures pieces == [] <==> deltas == []
  {}

  lemma {:induction false} ArgumentsOfCut(calls: map<int, Call>, first: seq<Option<ToolDelta>>, second: seq<Option<ToolDelta>>,
                                          whole: seq<Option<ToolDelta>>, i: int)
    ensures var between := AddCalls(calls, first, |first|);
            ArgumentsAt(AddCalls(between, second, |second|), i) == ArgumentsAt(AddCalls(calls, whole, |whole|), i) <==>
            Said(CallPieces(first), 0, i) + Said(CallPieces(second), 0, i) == Said(CallPieces(whole), 0, i)
  {
    hide AddCalls, CallPieces, Said, ArgumentsAt;
    var between := AddCalls(calls, first, |first|);
    AllArguments(calls, first, i);
    AllArguments(between, second, i);
    AllArguments(calls, whole, i);
    var before := ArgumentsAt(calls, i);
    var a, b := Said(CallPieces(first), 0, i), Said(CallPieces(second), 0, i);
    assert (before + a) + b == before + (a + b);
    Cancel(before, a + b, Said(CallPieces(whole), 0, i));
  }

  lemma {:induction false} AllArguments(calls: map<int, Call>, deltas: seq<Option<ToolDelta>>, i: int)
    ensures ArgumentsAt(AddCalls(calls, deltas, |deltas|), i) == ArgumentsAt(calls, i) + Said(CallPieces(deltas), 0, i)
  {
    ArgumentsSaid(calls, deltas, |deltas|, i);
    assert CallPieces(deltas)[..|deltas|] == CallPieces(deltas);
  }

  // Two calls without index: the rest of the second one's argument reaches the first.
  lemma {:induction false} TailGoesAstray()
    ensures var call := ToolDelta(None, None, None, None, Text("p"), None, Absent);
            var first, second := [Some(call), Some(call.(arguments := Text("a")))], [Some(call.(arguments := Text("b")))];
            var whole := [Some(call), Some(call.(arguments := Text("ab")))];
            var split := AddCalls(AddCalls(map[], first, 2), second, 1);
            && ArgumentsAt(split, 0) == "pb" && ArgumentsAt(split, 1) == "a"
            && ArgumentsAt(AddCalls(map[], whole, 2), 0) == "p" && ArgumentsAt(AddCalls(map[], whole, 2), 1) == "ab"
  {
    var call := ToolDelta(None, None, None, None, Text("p"), None, Absent);
    var first, second := [Some(call), Some(call.(arguments := Text("a")))], [Some(call.(arguments := Text("b")))];
    var whole := [Some(call), Some(call.(arguments := Text("ab")))];
    forall i
      ensures ArgumentsAt(AddCalls(map[], first, 2), i) == "" + Heard(CallPieces(first)[0], 0, i) + Heard(CallPieces(first)[1], 1, i)
      ensures ArgumentsAt(AddCalls(map[], whole, 2), i) == "" + Heard(CallPieces(whole)[0], 0, i) + Heard(CallPieces(whole)[1], 1, i)
      ensures ArgumentsAt(AddCalls(AddCalls(map[], first, 2), second, 1), i)
           == ArgumentsAt(AddCalls(map[], first, 2), i) + Heard(CallPieces(second)[0], 0, i)
    {
      TwoCalls(first, i);
      TwoCalls(whole, i);
      ArgumentsStep(AddCalls(map[], first, 2), second, 1, i);
      assert AddCalls(AddCalls(map[], first, 2), second, 0) == AddCalls(map[], first, 2);
    }
    hide AddCalls;
    assert "" + "p" + "" == "p" && "" + "" + "a" == "a" && "" + "" + "ab" == "ab" && "a" + "" == "a";
  }

  lemma {:induction false} TwoCalls(deltas: seq<Option<ToolDelta>>, i: int)
    requires |deltas| == 2
    ensures ArgumentsAt(AddCalls(map[], deltas, 2), i) == "" + Heard(CallPieces(deltas)[0], 0, i) + Heard(CallPieces(deltas)[1], 1, i)
  {
    ArgumentsStep(map[], deltas, 1, i);
    ArgumentsStep(map[], deltas, 2, i);
    assert AddCalls(map[], deltas, 0) == map[];
  }

  // ----- All choices

  type States = map<int, State>

  function ChoiceIndex(c: Choice, position: nat): int { if c.index.Some? then c.index.value else position }

  // The states after the first k choices of an event.
  function FeedChoices(states: States, choices: seq<Option<Choice>>, k: nat): States
    requires k <= |choices|
  {
    if k == 0 then states
    else
      var before := FeedChoices(states, choices, k - 1);
      match choices[k - 1]
      case None => before
      case Some(c) =>
        var i := ChoiceIndex(c, k - 1);
        before[i := FeedChoice(if i in before then before[i] else EMPTY, c)]
  }

  function FeedEvents(states: States, events: seq<Event>): States {
    if events == [] then states
    else
      var e := events[|events| - 1];
      FeedChoices(FeedEvents(states, events[..|events| - 1]), e.choices, |e.choices|)
  }

  // The deltas of one choice among choices at the positions from `at` on.
  function OfEvent(choices: seq<Option<Choice>>, at: nat, i: int): seq<Choice> {
    if choices == [] then []
    else
      var n := |choices| - 1;
      OfEvent(choices[..n], at, i) +
      (if choices[n].Some? && ChoiceIndex(choices[n].value, at + n) == i then [choices[n].value] else [])
  }

  function OfEvents(events: seq<Event>, i: int): seq<Choice> {
    if events == [] then []
    else
      OfEvents(events[..|events| - 1], i) + OfEvent(events[|events| - 1].choices, 0, i)
  }

  function Fold(s: State, deltas: seq<Choice>): State {
    if deltas == [] then s else FeedChoice(Fold(s, deltas[..|deltas| - 1]), deltas[|deltas| - 1])
  }

  lemma {:induction false} FoldConcat(s: State, a: seq<Choice>, b: seq<Choice>)
    ensures Fold(s, a + b) == Fold(Fold(s, a), b)
  {
    hide FeedChoice;
    if b == [] {
      assert a + b == a;
    } else {
      assert (a + b)[..|a + b| - 1] == a + b[..|b| - 1];
      FoldConcat(s, a, b[..|b| - 1]);
    }
  }

  lemma {:induction false} SameOutcomeStays(s: State, t: State, later: seq<Choice>)
    requires OutcomeOf(s) == OutcomeOf(t)
    ensures OutcomeOf(Fold(s, later)) == OutcomeOf(Fold(t, later))
  {
    hide FeedChoice, FeedOn, OutcomeOf;
    if later != [] {
      var front, last := later[..|later| - 1], later[|later| - 1];
      SameOutcomeStays(s, t, front);
      FeedOutcome(Fold(s, front), last);
      FeedOutcome(Fold(t, front), last);
    }
  }

  // Replacing a delta by a split of it, anywhere in a choice's stream, leaves
  // the outcome as it was.
  lemma {:induction false} SplitAnywhere(earlier: seq<Choice>, a: Choice, b: Choice, whole: Choice, later: seq<Choice>)
    requires SameAs(a, b, whole)
    ensures OutcomeOf(Fold(EMPTY, earlier + [a, b] + later)) == OutcomeOf(Fold(EMPTY, earlier + [whole] + later))
  {
    hide FeedChoice, OutcomeOf;
    var s := Fold(EMPTY, earlier);
    FoldConcat(EMPTY, earlier + [a, b], later);
    FoldConcat(EMPTY, earlier + [whole], later);
    FoldConcat(EMPTY, earlier, [a, b]);
    FoldConcat(EMPTY, earlier, [whole]);
    assert [a, b][..1] == [a] && [a][..0] == [] && [whole][..0] == [];
    assert Fold(s, [a]) == FeedChoice(s, a) && Fold(s, [a, b]) == FeedChoice(FeedChoice(s, a), b);
    SameOutcomeStays(Fold(s, [a, b]), Fold(s, [whole]), later);
  }

  function StateOf(states: States, i: int): State { if i in states then states[i] else EMPTY }

  lemma {:induction false} EventIsLocal(states: States, choices: seq<Option<Choice>>, k: nat, i: int)
    requires k <= |choices|
    ensures var after := FeedChoices(states, choices, k);
            && StateOf(after, i) == Fold(StateOf(states, i), OfEvent(choices[..k], 0, i))
            && (i in after <==> i in states || OfEvent(choices[..k], 0, i) != [])
  {
    hide FeedChoice;
    if k > 0 {
      EventIsLocal(states, choices, k - 1, i);
      assert choices[..k][..k - 1] == choices[..k - 1];
      var before := OfEvent(choices[..k - 1], 0, i);
      if choices[k - 1].Some? && ChoiceIndex(choices[k - 1].value, k - 1) == i {
        assert (before + [choices[k - 1].value])[..|before|] == before;
      } else {
        assert before + [] == before;
      }
    }
  }

  // Each choice's state depends only on its own deltas, however the choices are
  // interleaved.
  lemma {:induction false} ChoicesAreIndependent(events: seq<Event>, i: int)
    ensures StateOf(FeedEvents(map[], events), i) == Fold(EMPTY, OfEvents(events, i))
    ensures i in FeedEvents(map[], events) <==> OfEvents(events, i) != []
  {
    hide FeedChoice, FeedChoices, OfEvent;
    if events != [] {
      var front, e := events[..|events| - 1], events[|events| - 1];
      ChoicesAreIndependent(front, i);
      EventIsLocal(FeedEvents(map[], front), e.choices, |e.choices|, i);
      assert e.choices[..|e.choices|] == e.choices;
      FoldConcat(EMPTY, OfEvents(front, i), OfEvent(e.choices, 0, i));
    }
  }

  // ----- Events may be split

  // What the caller gets: an outcome per choice, or an empty one if there was none.
  function Results(states: States): map<int, Outcome> {
    if states == map[] then map[0 := OutcomeOf(EMPTY)] else map i | i in states :: OutcomeOf(states[i])
  }

  function UsageOf(events: seq<Event>): map<string, int> {
    if events == [] then map[] else UsageOf(events[..|events| - 1]) + events[|events| - 1].usage
  }

  predicate AllIndexed(choices: seq<Option<Choice>>) {
    forall k :: 0 <= k < |choices| && choices[k].Some? ==> choices[k].value.index.Some?
  }

  // Where the choices after a cut keep their index: the cut is in the first choice, or
  // every choice from the cut on names its index.
  predicate ChoicesStay(pre: seq<Option<Choice>>, c: Choice, post: seq<Option<Choice>>) {
    pre == [] || (c.index.Some? && AllIndexed(post))
  }

  lemma {:induction false} OfEventConcat(a: seq<Option<Choice>>, b: seq<Option<Choice>>, at: nat, i: int)
    ensures OfEvent(a + b, at, i) == OfEvent(a, at, i) + OfEvent(b, at + |a|, i)
  {
    if b == [] {
      assert a + b == a;
    } else {
      var n := |b| - 1;
      assert (a + b)[..|a| + n] == a + b[..n];
      OfEventConcat(a, b[..n], at, i);
    }
  }

  lemma {:induction false} IndexedStay(choices: seq<Option<Choice>>, at: nat, i: int)
    requires AllIndexed(choices)
    ensures OfEvent(choices, at, i) == OfEvent(choices, 0, i)
  {
    if choices != [] { IndexedStay(choices[..|choices| - 1], at, i); }
  }

  lemma {:induction false} OfOne(c: Choice, at: nat, i: int)
    ensures OfEvent([Some(c)], at, i) == if ChoiceIndex(c, at) == i then [c] else []
  {
    assert [Some(c)][..0] == [];
  }

  lemma {:induction false} OfEventsConcat(a: seq<Event>, b: seq<Event>, i: int)
    ensures OfEvents(a + b, i) == OfEvents(a, i) + OfEvents(b, i)
  {
    hide OfEvent;
    if b == [] {
      assert a + b == a;
    } else {
      var n := |b| - 1;
      assert (a + b)[..|a| + n] == a + b[..n];
      OfEventsConcat(a, b[..n], i);
    }
  }

  // The deltas of one choice in a cut event and in the whole one.
  lemma {:induction false} CutDeltas(pre: seq<Option<Choice>>, a: Choice, b: Choice, c: Choice, post: seq<Option<Choice>>, i: int)
    requires a.index == b.index == c.index && ChoicesStay(pre, c, post)
    ensures var before, after := OfEvent(pre, 0, i), OfEvent(post, |pre| + 1, i);
            var here := ChoiceIndex(c, |pre|) == i;
            && OfEvent(pre + [Some(c)] + post, 0, i) == before + (if here then [c] else []) + after
            && OfEvent(pre + [Some(a)], 0, i) == before + (if here then [a] else [])
            && OfEvent([Some(b)] + post, 0, i) == (if here then [b] else []) + after
  {
    hide OfEvent;
    OfEventConcat(pre + [Some(c)], post, 0, i);
    OfEventConcat(pre, [Some(c)], 0, i);
    OfEventConcat(pre, [Some(a)], 0, i);
    OfEventConcat([Some(b)], post, 0, i);
    OfOne(c, |pre|, i);
    OfOne(a, |pre|, i);
    OfOne(b, 0, i);
    if pre != [] {
      IndexedStay(post, 1, i);
      IndexedStay(post, |pre| + 1, i);
    }
  }

  lemma {:induction false} TwoEvents(e: Event, f: Event, i: int)
    ensures OfEvents([e], i) == OfEvent(e.choices, 0, i)
    ensures OfEvents([e, f], i) == OfEvent(e.choices, 0, i) + OfEvent(f.choices, 0, i)
    ensures UsageOf([e]) == e.usage && UsageOf([e, f]) == e.usage + f.usage
  {
    hide OfEvent;
    assert [e, f][..1] == [e] && [e][..0] == [];
    assert map[] + e.usage == e.usage;
  }

  lemma {:induction false} UsageConcat(a: seq<Event>, b: seq<Event>)
    ensures UsageOf(a + b) == UsageOf(a) + UsageOf(b)
  {
    if b == [] {
      assert a + b == a && UsageOf(a) + map[] == UsageOf(a);
    } else {
      var n := |b| - 1;
      assert (a + b)[..|a| + n] == a + b[..n] && (a + b)[|a| + n] == b[n];
      UsageConcat(a, b[..n]);
      MergeAssociates(UsageOf(a), UsageOf(b[..n]), b[n].usage);
    }
  }

  lemma {:induction false} MergeAssociates(x: map<string, int>, y: map<string, int>, z: map<string, int>)
    ensures (x + y) + z == x + (y + z)
  {}

  // The event with one choice's delta, and the two events it is cut into.
  function Whole(usage: map<string, int>, pre: seq<Option<Choice>>, c: Choice, post: seq<Option<Choice>>): Event {
    Event(usage, pre + [Some(c)] + post)
  }
  function HeadEvent(pre: seq<Option<Choice>>, a: Choice): Event { Event(map[], pre + [Some(a)]) }
  function TailEvent(usage: map<string, int>, b: Choice, post: seq<Option<Choice>>): Event {
    Event(usage, [Some(b)] + post)
  }

  // Anywhere in a stream of events, over any choices: replacing an event by two into
  // which one of its deltas is cut leaves every result and the usage as they were, if
  // the choices from the cut on keep their index.
  lemma {:induction false} EventSplits(earlier: seq<Event>, usage: map<string, int>, pre: seq<Option<Choice>>, a: Choice, b: Choice,
                                       c: Choice, post: seq<Option<Choice>>, later: seq<Event>)
    requires SameAs(a, b, c) && a.index == b.index == c.index && ChoicesStay(pre, c, post)
    ensures var split := earlier + [HeadEvent(pre, a), TailEvent(usage, b, post)] + later;
            var whole := earlier + [Whole(usage, pre, c, post)] + later;
            && Results(FeedEvents(map[], split)) == Results(FeedEvents(map[], whole))
            && UsageOf(split) == UsageOf(whole)
  {
    hide FeedEvents, OutcomeOf, OfEvents, OfEvent, Fold, UsageOf;
    var split := earlier + [HeadEvent(pre, a), TailEvent(usage, b, post)] + later;
    var whole := earlier + [Whole(usage, pre, c, post)] + later;
    var s, t := FeedEvents(map[], split), FeedEvents(map[], whole);
    forall i: int
      ensures i in s.Keys <==> i in t.Keys
      ensures i in s.Keys && i in t.Keys ==> OutcomeOf(s[i]) == OutcomeOf(t[i])
    {
      ChoiceSplits(earlier, usage, pre, a, b, c, post, later, i);
    }
    assert s.Keys == t.Keys;
    SameResults(s, t);
    SameUsage(earlier, usage, pre, a, b, c, post, later);
  }

  lemma {:induction false} SameResults(s: States, t: States)
    requires s.Keys == t.Keys && forall i :: i in s.Keys ==> OutcomeOf(s[i]) == OutcomeOf(t[i])
    ensures Results(s) == Results(t)
  {
    hide OutcomeOf;
    assert s == map[] <==> s.Keys == {};
    assert t == map[] <==> t.Keys == {};
    var a, b := Results(s), Results(t);
    if s != map[] {
      assert a.Keys == s.Keys && b.Keys == t.Keys;
      assert forall i :: i in a.Keys ==> a[i] == b[i];
    }
  }

  lemma {:induction false} SameUsage(earlier: seq<Event>, usage: map<string, int>, pre: seq<Option<Choice>>, a: Choice, b: Choice,
                                     c: Choice, post: seq<Option<Choice>>, later: seq<Event>)
    ensures UsageOf(earlier + [HeadEvent(pre, a), TailEvent(usage, b, post)] + later)
         == UsageOf(earlier + [Whole(usage, pre, c, post)] + later)
  {
    var head, tail, whole := HeadEvent(pre, a), TailEvent(usage, b, post), Whole(usage, pre, c, post);
    UsageConcat(earlier + [head, tail], later);
    UsageConcat(earlier, [head, tail]);
    UsageConcat(earlier + [whole], later);
    UsageConcat(earlier, [whole]);
    TwoEvents(head, tail, 0);
    TwoEvents(whole, whole, 0);
    assert map[] + usage == usage;
  }

  lemma {:induction false} ChoiceSplits(earlier: seq<Event>, usage: map<string, int>, pre: seq<Option<Choice>>, a: Choice, b: Choice,
                                        c: Choice, post: seq<Option<Choice>>, later: seq<Event>, i: int)
    requires SameAs(a, b, c) && a.index == b.index == c.index && ChoicesStay(pre, c, post)
    ensures var s := FeedEvents(map[], earlier + [HeadEvent(pre, a), TailEvent(usage, b, post)] + later);
            var t := FeedEvents(map[], earlier + [Whole(usage, pre, c, post)] + later);
            OutcomeOf(StateOf(s, i)) == OutcomeOf(StateOf(t, i)) && (i in s <==> i in t)
  {
    hide FeedEvents, OutcomeOf, OfEvents, OfEvent, Fold, SameAs, UsageOf;
    var head, tail, whole := HeadEvent(pre, a), TailEvent(usage, b, post), Whole(usage, pre, c, post);
    ChoicesAreIndependent(earlier + [head, tail] + later, i);
    ChoicesAreIndependent(earlier + [whole] + later, i);
    OfEventsConcat(earlier + [head, tail], later, i);
    OfEventsConcat(earlier, [head, tail], i);
    OfEventsConcat(earlier + [whole], later, i);
    OfEventsConcat(earlier, [whole], i);
    TwoEvents(head, tail, i);
    TwoEvents(whole, whole, i);
    CutDeltas(pre, a, b, c, post, i);
    var before, after := OfEvents(earlier, i) + OfEvent(pre, 0, i), OfEvent(post, |pre| + 1, i) + OfEvents(later, i);
    Streams(OfEvents(earlier, i), OfEvent(pre, 0, i), a, b, c, OfEvent(post, |pre| + 1, i), OfEvents(later, i));
    if ChoiceIndex(c, |pre|) == i { SplitAnywhere(before, a, b, c, after); }
  }

  // Regrouping the deltas of one choice around a cut.
  lemma {:induction false} Streams(u: seq<Choice>, v: seq<Choice>, a: Choice, b: Choice, c: Choice, w: seq<Choice>, z: seq<Choice>)
    ensures u + ((v + [a]) + ([b] + w)) + z == (u + v) + [a, b] + (w + z)
    ensures u + (v + [c] + w) + z == (u + v) + [c] + (w + z)
    ensures u + ((v + []) + ([] + w)) + z == u + (v + [] + w) + z
    ensures (u + v) + [a, b] + (w + z) != [] && (u + v) + [c] + (w + z) != []
  {}

  // ----- Where the text of a cut choice goes

  datatype Field = Content | Reasoning

  // What a delta adds to the text; both reasoning fields add to the reasoning.
  function TextIn(field: Field, c: Choice): string {
    match field
    case Content => OrEmpty(NodeOf(c).content)
    case Reasoning => OrEmpty(NodeOf(c).reasoningContent) + OrEmpty(NodeOf(c).reasoning)
  }

  function ChoicePieces(field: Field, choices: seq<Option<Choice>>): (pieces: seq<Option<Piece>>)
    ensures |pieces| == |choices|
    ensures forall k :: 0 <= k < |choices| ==>
              pieces[k] == if choices[k].Some? then Some(Piece(choices[k].value.index, TextIn(field, choices[k].value))) else None
  {
    seq(|choices|, k requires 0 <= k < |choices| =>
      if choices[k].Some? then Some(Piece(choices[k].value.index, TextIn(field, choices[k].value))) else None)
  }

  function TextOf(field: Field, s: State): string {
    match field
    case Content => Join(s.content)
    case Reasoning => Join(s.reasoning)
  }

  function TextAt(field: Field, states: States, i: int): string { TextOf(field, StateOf(states, i)) }

  ghost predicate SameText(field: Field, a: States, b: States) { forall i :: TextAt(field, a, i) == TextAt(field, b, i) }

  lemma {:induction false} FeedAdds(field: Field, s: State, c: Choice)
    ensures TextOf(field, FeedChoice(s, c)) == TextOf(field, s) + TextIn(field, c)
  {
    hide AddCalls, Join;
    var node := NodeOf(c);
    JoinPart(s.content, node.content);
    JoinPart(s.reasoning, node.reasoningContent);
    JoinPart(AddPart(s.reasoning, node.reasoningContent), node.reasoning);
    Associate(Join(s.reasoning), OrEmpty(node.reasoningContent), OrEmpty(node.reasoning));
  }

  lemma {:induction false} TextStep(field: Field, states: States, choices: seq<Option<Choice>>, k: nat, i: int)
    requires 0 < k <= |choices|
    ensures TextAt(field, FeedChoices(states, choices, k), i)
         == TextAt(field, FeedChoices(states, choices, k - 1), i) + Heard(ChoicePieces(field, choices)[k - 1], k - 1, i)
  {
    hide FeedChoice, TextOf, TextIn;
    var before := FeedChoices(states, choices, k - 1);
    Associate(TextAt(field, before, i), "", "");
    if choices[k - 1].Some? { FeedAdds(field, StateOf(before, i), choices[k - 1].value); }
  }

  lemma {:induction false} NothingFed(states: States, choices: seq<Option<Choice>>)
    ensures FeedChoices(states, choices, 0) == states
  {}

  lemma {:induction false} TextSaid(field: Field, states: States, choices: seq<Option<Choice>>, k: nat, i: int)
    requires k <= |choices|
    ensures TextAt(field, FeedChoices(states, choices, k), i)
         == TextAt(field, states, i) + Said(ChoicePieces(field, choices)[..k], 0, i)
  {
    hide TextAt, FeedChoices, ChoicePieces, Heard;
    if k == 0 {
      NothingFed(states, choices);
      Associate(TextAt(field, states, i), "", "");
    } else {
      TextSaid(field, states, choices, k - 1, i);
      TextStep(field, states, choices, k, i);
      var pieces := ChoicePieces(field, choices);
      assert pieces[..k][..k - 1] == pieces[..k - 1];
      Associate(TextAt(field, states, i), Said(pieces[..k - 1], 0, i), Heard(pieces[k - 1], k - 1, i));
    }
  }

  lemma {:induction false} AllText(field: Field, states: States, choices: seq<Option<Choice>>, i: int)
    ensures TextAt(field, FeedChoices(states, choices, |choices|), i)
         == TextAt(field, states, i) + Said(ChoicePieces(field, choices), 0, i)
  {
    TextSaid(field, states, choices, |choices|, i);
    assert ChoicePieces(field, choices)[..|choices|] == ChoicePieces(field, choices);
  }

  lemma {:induction false} TextOfCut(field: Field, states: States, first: seq<Option<Choice>>, second: seq<Option<Choice>>,
                                     whole: seq<Option<Choice>>, i: int)
    ensures var between := FeedChoices(states, first, |first|);
            TextAt(field, FeedChoices(between, second, |second|), i) == TextAt(field, FeedChoices(states, whole, |whole|), i) <==>
            Said(ChoicePieces(field, first), 0, i) + Said(ChoicePieces(field, second), 0, i)
              == Said(ChoicePieces(field, whole), 0, i)
  {
    hide FeedChoices, ChoicePieces, Said, TextAt;
    var between := FeedChoices(states, first, |first|);
    AllText(field, states, first, i);
    AllText(field, between, second, i);
    AllText(field, states, whole, i);
    var before := TextAt(field, states, i);
    var a, b := Said(ChoicePieces(field, first), 0, i), Said(ChoicePieces(field, second), 0, i);
    assert (before + a) + b == before + (a + b);
    Cancel(before, a + b, Said(ChoicePieces(field, whole), 0, i));
  }

  // Deltas a and b of the same choice say together what c says.
  predicate Cuts(field: Field, a: Choice, b: Choice, c: Choice) {
    a.index == b.index == c.index && TextIn(field, a) + TextIn(field, b) == TextIn(field, c)
  }

  lemma {:induction false} ChoicePiecesOfCut(field: Field, pre: seq<Option<Choice>>, a: Choice, b: Choice, c: Choice,
                                             post: seq<Option<Choice>>)
    requires Cuts(field, a, b, c)
    ensures ChoicePieces(field, pre + [Some(a)]) == ChoicePieces(field, pre) + [Some(Piece(c.index, TextIn(field, a)))]
    ensures ChoicePieces(field, [Some(b)] + post) == [Some(Piece(c.index, TextIn(field, b)))] + ChoicePieces(field, post)
    ensures ChoicePieces(field, pre + [Some(c)] + post)
         == ChoicePieces(field, pre) + [Some(Piece(c.index, TextIn(field, a) + TextIn(field, b)))] + ChoicePieces(field, post)
    ensures ChoicePieces(field, pre) == [] <==> pre == []
  {}

  // For any event and any cut of a delta: the text of every choice comes out as sent
  // exactly if the cut is in the first choice or no text from the cut on depends on its
  // position.
  lemma {:induction false} TextMoves(field: Field, states: States, pre: seq<Option<Choice>>, a: Choice, b: Choice, c: Choice,
                                     post: seq<Option<Choice>>)
    requires Cuts(field, a, b, c)
    ensures var first, second, whole := pre + [Some(a)], [Some(b)] + post, pre + [Some(c)] + post;
            var split := FeedChoices(FeedChoices(states, first, |first|), second, |second|);
            SameText(field, split, FeedChoices(states, whole, |whole|)) <==> pre == [] || Fixed(ChoicePieces(field, second))
  {
    hide FeedChoices, ChoicePieces, Said, Fixed, TextAt;
    var first, second, whole := pre + [Some(a)], [Some(b)] + post, pre + [Some(c)] + post;
    var between := FeedChoices(states, first, |first|);
    ChoicePiecesOfCut(field, pre, a, b, c, post);
    CutPieces(ChoicePieces(field, pre), c.index, TextIn(field, a), TextIn(field, b), ChoicePieces(field, post));
    forall i
      ensures TextAt(field, FeedChoices(between, second, |second|), i) == TextAt(field, FeedChoices(states, whole, |whole|), i) <==>
              Said(ChoicePieces(field, first), 0, i) + Said(ChoicePieces(field, second), 0, i)
                == Said(ChoicePieces(field, whole), 0, i)
    {
      TextOfCut(field, states, first, second, whole, i);
    }
  }

  // The splits above are cuts: of the content, and of either reasoning field.
  lemma {:induction false} SplitsAreCuts(c: Choice, x: string, y: string)
    requires c.delta.Some?
    ensures var node := c.delta.value;
            && (node.content == Some(x + y) ==>
                  Cuts(Content, Part(c, EMPTY_NODE.(content := Some(x))), c.(delta := Some(node.(content := Some(y)))), c))
            && (node.reasoningContent == Some(x + y) ==>
                  Cuts(Reasoning, Part(c, EMPTY_NODE.(reasoningContent := Some(x))),
                       c.(delta := Some(node.(reasoningContent := Some(y)))), c))
            && (node.reasoning == Some(x + y) ==>
                  Cuts(Reasoning, Part(c, EMPTY_NODE.(reasoningContent := node.reasoningContent, reasoning := Some(x))),
                       c.(delta := Some(node.(reasoningContent := None, reasoning := Some(y)))), c))
  {
    var node := c.delta.value;
    var before, after := OrEmpty(node.reasoningContent), OrEmpty(node.reasoning);
    assert x + "" == x && "" + y == y;
    assert (x + y) + after == x + (y + after);
    assert (before + x) + y == before + (x + y);
  }

  // ----- The assembler

  // How many of the first k choices bring output.
  function Generating(choices: seq<Option<Choice>>, k: nat): nat
    requires k <= |choices|
  {
    if k == 0 then 0
    else Generating(choices, k - 1) + (if choices[k - 1].Some? && Generates(NodeOf(choices[k - 1].value)) then 1 else 0)
  }

  // The arrival time, once for each choice that brought output.
  function Arrivals(observedAt: Option<int>, n: nat): seq<int> {
    if observedAt.None? then [] else seq(n, _ => observedAt.value)
  }

  class Assembler {
    var choices: map<int, ChoiceAssembly>
    var usage: map<string, int>
    var generatedAt: seq<int>

    // No two choices share their parser state.
    ghost predicate Valid()
      reads this`choices
    {
      forall i, j :: i in choices && j in choices && i != j ==> choices[i] != choices[j]
    }

    ghost function View(): States
      reads this`choices, choices.Values
    {
      map i | i in choices :: choices[i].View()
    }

    constructor ()
      ensures Valid() && View() == map[] && usage == map[] && generatedAt == []
    {
      choices, usage, generatedAt := map[], map[], [];
    }

    // Look a choice up, creating its state on first use.
    method EnsureChoice(i: int)
      requires Valid()
      modifies this`choices
      ensures Valid() && i in choices && fresh(choices.Values - old(choices.Values))
      ensures View() == old(View())[i := StateOf(old(View()), i)]
    {
      if i !in choices {
        ghost var before := View();
        assert forall j :: j in choices ==> choices[j] in choices.Values;
        var state := new ChoiceAssembly();
        choices := choices[i := state];
        assert forall j :: j in before ==> choices[j].View() == before[j];
      }
    }

    method FeedOne(choice: Choice, i: int) returns (generated: bool)
      requires Valid()
      modifies this`choices, choices.Values
      ensures Valid() && fresh(choices.Values - old(choices.Values))
      ensures View() == old(View())[i := FeedChoice(StateOf(old(View()), i), choice)]
      ensures generated <==> Generates(NodeOf(choice))
    {
      hide FeedChoice, Generates;
      EnsureChoice(i);
      ghost var before := View();
      assert choices[i].View() == before[i];
      generated := choices[i].Feed(choice);
      assert forall j :: j in before && j != i ==> choices[j].View() == before[j];
    }

    method Feed(event: Event, observedAt: Option<int>)
      requires Valid()
      modifies this, choices.Values
      ensures Valid() && fresh(choices.Values - old(choices.Values))
      ensures View() == FeedChoices(old(View()), event.choices, |event.choices|)
      ensures usage == old(usage) + event.usage
      ensures generatedAt == old(generatedAt) + Arrivals(observedAt, Generating(event.choices, |event.choices|))
    {
      hide FeedChoice, View, Generates;
      usage := usage + event.usage;
      assert View() == old(View());
      assert generatedAt + [] == generatedAt;
      for position := 0 to |event.choices|
        invariant Valid() && fresh(choices.Values - old(choices.Values))
        invariant View() == FeedChoices(old(View()), event.choices, position)
        invariant usage == old(usage) + event.usage
        invariant generatedAt == old(generatedAt) + Arrivals(observedAt, Generating(event.choices, position))
      {
        if event.choices[position].None? { continue; }
        var choice := event.choices[position].value;
        label L:
        var generated := FeedOne(choice, if choice.index.Some? then choice.index.value else position);
        assert generatedAt == old@L(generatedAt);
        if generated && observedAt.Some? { Record(observedAt.value); }
      }
    }

    method Record(t: int)
      modifies this`generatedAt
      ensures generatedAt == old(generatedAt) + [t]
      ensures forall n: nat, before :: old(generatedAt) == before + Arrivals(Some(t), n) ==>
                generatedAt == before + Arrivals(Some(t), n + 1)
    {
      ghost var was := generatedAt;
      generatedAt := generatedAt + [t];
      forall n: nat, before | was == before + Arrivals(Some(t), n)
        ensures generatedAt == before + Arrivals(Some(t), n + 1)
      {
        assert Arrivals(Some(t), n + 1) == Arrivals(Some(t), n) + [t];
      }
    }

    // The results, one per choice.
    method Collect() returns (results: map<int, Outcome>)
      ensures results == Results(View())
    {
      if choices == map[] {
        assert View() == map[];
        return map[0 := OutcomeOf(EMPTY)];
      }
      results := map i | i in choices :: OutcomeOf(choices[i].View());
      assert View().Keys == choices.Keys;
    }
  }
}
