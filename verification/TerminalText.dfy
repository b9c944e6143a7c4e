/** The end of a run: the runtime's final answer replaces the streamed text, which stays in
    the trace as narration; and trailing text can be detached. */
module TerminalText {
  import opened Wrappers
  import opened AgentTrace
  import opened PythonText

  const THINKING := Some("thinking")

  /** A streamed text kept as a thinking step. */
  function Narration(m: Message): Message {
    m.(kind := Tool, toolName := THINKING, cost := 0.0, usage := None)
  }

  /** What preceded the final answer in the block that ends with it. */
  function Preface(m: Message, text: string): Message {
    m.(kind := Tool, toolName := THINKING, content := text,
       streamId := if Truthy(m.streamId) then Some(m.streamId.value + ":narration") else None,
       time := 0.0, cost := 0.0, usage := None)
  }

  function FinalBlock(final: string, id: string): Message {
    Message(Text, final, None, false, None, 0.0, 0.0, true, None, Some(id), false, None)
  }

  /** A text block that ends with the final answer. */
  predicate Matches(m: Message, final: string) {
    m.kind == Text && !Blank(m.content) && EndsWith(m.content, final)
  }

  predicate AnyMatch(ms: seq<Message>, final: string) {
    exists i :: 0 <= i < |ms| && Matches(ms[i], final)
  }

  /** What becomes of one block; `inserted` says that a later block holds the answer. */
  function Piece(m: Message, final: string, inserted: bool): seq<Message> {
    if m.kind != Text then [m]
    else if Blank(m.content) then []
    else if !inserted && EndsWith(m.content, final) then
      var preface := Strip(m.content[..|m.content| - |final|]);
      (if preface != "" then [Preface(m, preface)] else []) + [m.(content := final)]
    else [Narration(m)]
  }

  function Rebuild(ms: seq<Message>, final: string, inserted: bool): seq<Message>
    decreases |ms|
  {
    if ms == [] then [] else
      var last := ms[|ms| - 1];
      Rebuild(ms[..|ms| - 1], final, inserted || Matches(last, final)) + Piece(last, final, inserted)
  }

  function NonText(ms: seq<Message>): seq<Message> {
    if ms == [] then [] else
      NonText(ms[..|ms| - 1]) + (if ms[|ms| - 1].kind != Text then [ms[|ms| - 1]] else [])
  }

  function Reconciled(t: Trace, final: string, id: string): Trace {
    if Blank(final) then
      t.(result := "", messages := NonText(t.messages))
    else
      t.(result := final,
         messages := Rebuild(t.messages, final, false)
                     + (if AnyMatch(t.messages, final) then [] else [FinalBlock(final, id)]))
  }

  // ----- exactly one answer -----

  function CountText(ms: seq<Message>): nat {
    if ms == [] then 0 else CountText(ms[..|ms| - 1]) + (if ms[|ms| - 1].kind == Text then 1 else 0)
  }

  ghost predicate TextIs(ms: seq<Message>, final: string) {
    forall i :: 0 <= i < |ms| && ms[i].kind == Text ==> ms[i].content == final
  }

  lemma {:induction false} CountAppend(a: seq<Message>, b: seq<Message>)
    ensures CountText(a + b) == CountText(a) + CountText(b)
    decreases |b|
  {
    if b == [] {
      assert a + b == a;
    } else {
      assert (a + b)[..|a + b| - 1] == a + b[..|b| - 1];
      CountAppend(a, b[..|b| - 1]);
    }
  }

  lemma PieceCount(m: Message, final: string, inserted: bool)
    ensures CountText(Piece(m, final, inserted)) == if !inserted && Matches(m, final) then 1 else 0
    ensures TextIs(Piece(m, final, inserted), final)
  {
    var p := Piece(m, final, inserted);
    if |p| == 2 {
      assert p[..1] == [p[0]] && p[..1][..0] == [];
    } else if |p| == 1 {
      assert p[..0] == [];
    }
  }

  lemma AnyMatchSplit(ms: seq<Message>, final: string)
    requires ms != []
    ensures AnyMatch(ms, final) <==> AnyMatch(ms[..|ms| - 1], final) || Matches(ms[|ms| - 1], final)
  {
    if i :| 0 <= i < |ms| && Matches(ms[i], final) {
      assert i == |ms| - 1 || ms[..|ms| - 1][i] == ms[i];
    }
  }

  /** Rebuilding can start from the last block, in front of what is already collected. */
  lemma RebuildLast(ms: seq<Message>, i: nat, final: string, inserted: bool, blocks: seq<Message>)
    requires 0 < i <= |ms|
    ensures var m := ms[i - 1];
            && Rebuild(ms[..i], final, inserted) + blocks
               == Rebuild(ms[..i - 1], final, inserted || Matches(m, final)) + (Piece(m, final, inserted) + blocks)
            && (AnyMatch(ms[..i], final) <==> AnyMatch(ms[..i - 1], final) || Matches(m, final))
  {
    assert ms[..i][..i - 1] == ms[..i - 1];
    AnyMatchSplit(ms[..i], final);
    Regroup(Rebuild(ms[..i - 1], final, inserted || Matches(ms[i - 1], final)), Piece(ms[i - 1], final, inserted),
            blocks);
  }

  lemma Regroup<T>(a: seq<T>, b: seq<T>, c: seq<T>)
    ensures a + b + c == a + (b + c)
  {
  }

  lemma TextIsAppend(a: seq<Message>, b: seq<Message>, final: string)
    requires TextIs(a, final) && TextIs(b, final)
    ensures TextIs(a + b, final)
  {
  }

  lemma {:induction false} RebuildText(ms: seq<Message>, final: string, inserted: bool)
    ensures TextIs(Rebuild(ms, final, inserted), final)
    decreases |ms|
  {
    if ms != [] {
      var last := ms[|ms| - 1];
      RebuildText(ms[..|ms| - 1], final, inserted || Matches(last, final));
      PieceCount(last, final, inserted);
      TextIsAppend(Rebuild(ms[..|ms| - 1], final, inserted || Matches(last, final)), Piece(last, final, inserted),
                   final);
    }
  }

  lemma {:induction false} RebuildCount(ms: seq<Message>, final: string, inserted: bool)
    ensures CountText(Rebuild(ms, final, inserted)) == if !inserted && AnyMatch(ms, final) then 1 else 0
    decreases |ms|
  {
    if ms != [] {
      var last := ms[|ms| - 1];
      AnyMatchSplit(ms, final);
      RebuildCount(ms[..|ms| - 1], final, inserted || Matches(last, final));
      PieceCount(last, final, inserted);
      CountAppend(Rebuild(ms[..|ms| - 1], final, inserted || Matches(last, final)), Piece(last, final, inserted));
    }
  }

  /** The trace ends up with exactly one text block, and it is the final answer. */
  lemma OneFinalAnswer(t: Trace, final: string, id: string)
    requires !Blank(final)
    ensures var r := Reconciled(t, final, id);
            r.result == final && CountText(r.messages) == 1 && TextIs(r.messages, final)
  {
    RebuildCount(t.messages, final, false);
    RebuildText(t.messages, final, false);
    var rebuilt := Rebuild(t.messages, final, false);
    CountAppend(rebuilt, [FinalBlock(final, id)]);
    assert [FinalBlock(final, id)][..0] == [];
    assert rebuilt + [] == rebuilt;
  }

  // ----- nothing is lost -----

  /** `x` is a thinking step with this text, made of the text block `m`: it costs nothing. */
  ghost predicate ThinkingStep(m: Message, x: Message, text: string) {
    && x.kind == Tool && x.toolName == Some("thinking") && x.content == text
    && x.cost == 0.0 && x.usage.None? && x.hasArguments == m.hasArguments && x.callId == m.callId
    && x.success == m.success && x.snapshot == m.snapshot && x.complete == m.complete
  }

  /** `p` is what becomes of `m`: another block stays, blank text goes, visible text stays as
      narration or as the final answer with its preface. */
  ghost predicate Keeps(m: Message, p: seq<Message>, final: string) {
    if m.kind != Text then p == [m]
    else if Blank(m.content) then p == []
    else
      || (|p| == 1 && ThinkingStep(m, p[0], m.content) && p[0].time == m.time && p[0].streamId == m.streamId)
      || HoldsFinal(m, p, final)
  }

  /** The block ended with the final answer; what came before it, if anything is left of that
      without surrounding white space, is a thinking step in front of it. */
  ghost predicate HoldsFinal(m: Message, p: seq<Message>, final: string) {
    exists head :: m.content == head + final && p != []
      && p[|p| - 1] == m.(content := final)
      && (if Strip(head) == "" then |p| == 1
          else
            && |p| == 2 && ThinkingStep(m, p[0], Strip(head)) && p[0].time == 0.0
            && p[0].streamId == (if m.streamId.Some? && m.streamId.value != ""
                                 then Some(m.streamId.value + ":narration") else None))
  }

  function Flatten(ps: seq<seq<Message>>): seq<Message> {
    if ps == [] then [] else Flatten(ps[..|ps| - 1]) + ps[|ps| - 1]
  }

  lemma PieceHoldsFinal(m: Message, head: string, final: string, p: seq<Message>)
    requires m.content == head + final
    requires p == (if Strip(head) != "" then [Preface(m, Strip(head))] else []) + [m.(content := final)]
    ensures HoldsFinal(m, p, final)
  {
    assert p[|p| - 1] == m.(content := final);
    if Strip(head) != "" { assert ThinkingStep(m, p[0], Strip(head)); }
  }

  lemma PieceKeeps(m: Message, final: string, inserted: bool)
    ensures Keeps(m, Piece(m, final, inserted), final)
    ensures HasAnswer(Piece(m, final, inserted)) <==> !inserted && Matches(m, final)
  {
    if m.kind == Text && !Blank(m.content) && !inserted && EndsWith(m.content, final) {
      var head := m.content[..|m.content| - |final|];
      assert m.content == head + final;
      PieceHoldsFinal(m, head, final, Piece(m, final, inserted));
    }
  }

  ghost predicate HasAnswer(p: seq<Message>) {
    p != [] && p[|p| - 1].kind == Text
  }

  ghost predicate LastMatch(ms: seq<Message>, i: int, final: string) {
    0 <= i < |ms| && Matches(ms[i], final) && forall j :: i < j < |ms| ==> !Matches(ms[j], final)
  }

  /** `p` is what becomes of the `i`-th block. */
  ghost predicate Becomes(ms: seq<Message>, i: int, p: seq<Message>, final: string, inserted: bool)
    requires 0 <= i < |ms|
  {
    Keeps(ms[i], p, final) && (HasAnswer(p) <==> !inserted && LastMatch(ms, i, final))
  }

  lemma BecomesEarlier(ms: seq<Message>, i: nat, p: seq<Message>, final: string, inserted: bool)
    requires i < |ms| - 1
    requires Becomes(ms[..|ms| - 1], i, p, final, inserted || Matches(ms[|ms| - 1], final))
    ensures Becomes(ms, i, p, final, inserted)
  {
    assert forall j :: 0 <= j < |ms| - 1 ==> ms[..|ms| - 1][j] == ms[j];
  }

  lemma BecomesLast(ms: seq<Message>, final: string, inserted: bool)
    requires ms != []
    ensures Becomes(ms, |ms| - 1, Piece(ms[|ms| - 1], final, inserted), final, inserted)
  {
    PieceKeeps(ms[|ms| - 1], final, inserted);
  }

  /** Block by block and in order, the rebuilt trace holds what the original did; the answer is
      in the last block that ended with it. */
  lemma {:induction false} RebuildKeeps(ms: seq<Message>, final: string, inserted: bool) returns (ps: seq<seq<Message>>)
    ensures |ps| == |ms| && Flatten(ps) == Rebuild(ms, final, inserted)
    ensures forall i :: 0 <= i < |ms| ==> Becomes(ms, i, ps[i], final, inserted)
    decreases |ms|
  {
    if ms == [] {
      ps := [];
    } else {
      var n := |ms| - 1;
      var front := RebuildKeeps(ms[..n], final, inserted || Matches(ms[n], final));
      ps := front + [Piece(ms[n], final, inserted)];
      assert ps[..n] == front;
      BecomesLast(ms, final, inserted);
      forall i | 0 <= i < n
        ensures Becomes(ms, i, ps[i], final, inserted)
      {
        BecomesEarlier(ms, i, front[i], final, inserted);
      }
    }
  }

  /** A blank final answer empties the result and removes the text blocks; the others stay in
      order. */
  lemma {:induction false} BlankAnswer(t: Trace, final: string, id: string) returns (ps: seq<seq<Message>>)
    requires Blank(final)
    ensures var r := Reconciled(t, final, id);
            && r.result == "" && r.messages == Flatten(ps) && |ps| == |t.messages|
            && r.cost == t.cost && r.time == t.time && r.usage == t.usage && r.toolsUsed == t.toolsUsed
            && forall i :: 0 <= i < |ps| ==> ps[i] == if t.messages[i].kind == Text then [] else [t.messages[i]]
  {
    ps := NonTextPieces(t.messages);
  }

  lemma {:induction false} NonTextPieces(ms: seq<Message>) returns (ps: seq<seq<Message>>)
    ensures NonText(ms) == Flatten(ps) && |ps| == |ms|
    ensures forall i :: 0 <= i < |ps| ==> ps[i] == if ms[i].kind == Text then [] else [ms[i]]
    decreases |ms|
  {
    if ms == [] {
      ps := [];
    } else {
      var last := ms[|ms| - 1];
      var front := NonTextPieces(ms[..|ms| - 1]);
      ps := front + [if last.kind == Text then [] else [last]];
      assert ps[..|ps| - 1] == front;
      assert NonText(ms[..|ms| - 1]) + [] == NonText(ms[..|ms| - 1]);
    }
  }

  /** The block is text that ends with the answer. */
  ghost predicate EndsWithAnswer(m: Message, final: string) {
    m.kind == Text && exists head :: m.content == head + final
  }

  lemma MatchesMeaning(m: Message, final: string)
    requires !Blank(final)
    ensures Matches(m, final) <==> EndsWithAnswer(m, final)
  {
    if EndsWith(m.content, final) {
      assert m.content == m.content[..|m.content| - |final|] + final;
    }
    if head :| m.content == head + final {
      var i :| 0 <= i < |final| && !IsSpace(final[i]);
      assert m.content[|head| + i] == final[i];
    }
  }

  /** The answer is added behind the rebuilt trace exactly when no block ended with it; the
      totals stay. */
  lemma AnswerPlace(t: Trace, final: string, id: string)
    requires !Blank(final)
    ensures var r := Reconciled(t, final, id);
            var answer := Message(Text, final, None, false, None, 0.0, 0.0, true, None, Some(id), false, None);
            && r.cost == t.cost && r.time == t.time && r.usage == t.usage && r.toolsUsed == t.toolsUsed
            && r.messages == Rebuild(t.messages, final, false)
                             + if exists i :: 0 <= i < |t.messages| && EndsWithAnswer(t.messages[i], final) then []
                               else [answer]
  {
    forall i | 0 <= i < |t.messages|
      ensures Matches(t.messages[i], final) <==> EndsWithAnswer(t.messages[i], final)
    {
      MatchesMeaning(t.messages[i], final);
    }
  }

  // ----- a second call changes nothing -----

  lemma PieceStable(m: Message, final: string, inserted: bool)
    requires !Blank(final) && (m.kind == Text ==> m.content == final && !inserted)
    ensures Piece(m, final, inserted) == [m]
    ensures m.kind == Text ==> Matches(m, final)
  {
    if m.kind == Text {
      assert m.content[..0] == "" && Strip("") == "";
    }
  }

  lemma {:induction false} RebuildStable(ms: seq<Message>, final: string, inserted: bool)
    requires !Blank(final) && TextIs(ms, final) && CountText(ms) <= if inserted then 0 else 1
    ensures Rebuild(ms, final, inserted) == ms
    decreases |ms|
  {
    if ms != [] {
      var front, last := ms[..|ms| - 1], ms[|ms| - 1];
      PieceStable(last, final, inserted);
      RebuildStable(front, final, inserted || Matches(last, final));
      assert front + [last] == ms;
    }
  }

  lemma {:induction false} CountFindsText(ms: seq<Message>, final: string)
    requires !Blank(final) && TextIs(ms, final) && CountText(ms) > 0
    ensures AnyMatch(ms, final)
    decreases |ms|
  {
    var last := ms[|ms| - 1];
    AnyMatchSplit(ms, final);
    if last.kind != Text {
      CountFindsText(ms[..|ms| - 1], final);
    }
  }

  lemma AlreadyReconciled(r: Trace, final: string, id: string)
    requires !Blank(final) && r.result == final
    requires Rebuild(r.messages, final, false) == r.messages && AnyMatch(r.messages, final)
    ensures Reconciled(r, final, id) == r
  {
    assert r.messages + [] == r.messages;
  }

  lemma ReconcileIdempotent(t: Trace, final: string, id: string, again: string)
    requires !Blank(final)
    ensures Reconciled(Reconciled(t, final, id), final, again) == Reconciled(t, final, id)
  {
    var r := Reconciled(t, final, id);
    OneFinalAnswer(t, final, id);
    RebuildStable(r.messages, final, false);
    CountFindsText(r.messages, final);
    AlreadyReconciled(r, final, again);
  }

  // ----- detaching trailing text -----

  function WithoutTrailingText(ms: seq<Message>): seq<Message> {
    if ms != [] && ms[|ms| - 1].kind == Text then WithoutTrailingText(ms[..|ms| - 1]) else ms
  }

  function Detached(t: Trace): Trace {
    var ms := WithoutTrailingText(t.messages);
    t.(messages := ms,
       time := t.time - (Sum(t.messages, Time) - Sum(ms, Time)),
       cost := t.cost - (Sum(t.messages, Cost) - Sum(ms, Cost)))
  }

  lemma {:induction false} DetachedSum(ms: seq<Message>, f: Measure)
    requires IsCounter(f)
    ensures Sum(WithoutTrailingText(ms), f) <= Sum(ms, f)
    decreases |ms|
  {
    if ms != [] && ms[|ms| - 1].kind == Text {
      DetachedSum(ms[..|ms| - 1], f);
      BlockAtMostSum(ms, |ms| - 1, f);
      SumSplit(ms, f);
    }
  }

  /** Detaching keeps the totals equal to the sums over what is left. */
  lemma DetachBalanced(t: Trace, lost: Lost)
    requires Balanced(t, lost)
    ensures Balanced(Detached(t), lost)
    ensures var ms := Detached(t).messages; ms == [] || ms[|ms| - 1].kind != Text
  {
    forall f
      ensures Fits(Detached(t), lost, f)
    {
      assert Fits(t, lost, f);
      if IsCounter(f) {
        DetachedSum(t.messages, f);
      }
    }
    EndsWithoutText(t.messages);
  }

  lemma {:induction false} EndsWithoutText(ms: seq<Message>)
    ensures var us := WithoutTrailingText(ms); us == [] || us[|us| - 1].kind != Text
    decreases |ms|
  {
    if ms != [] && ms[|ms| - 1].kind == Text {
      EndsWithoutText(ms[..|ms| - 1]);
    }
  }

  /** Detaching removes exactly the text blocks at the end, with their time and cost; the rest of
      the trace stays. */
  lemma {:induction false} DetachMeaning(t: Trace) returns (n: nat)
    ensures n <= |t.messages| && Detached(t).messages == t.messages[..n]
    ensures n > 0 ==> t.messages[n - 1].kind != Text
    ensures forall i :: n <= i < |t.messages| ==> t.messages[i].kind == Text
    ensures Detached(t).time == t.time - (Sum(t.messages, Time) - Sum(t.messages[..n], Time))
    ensures Detached(t).cost == t.cost - (Sum(t.messages, Cost) - Sum(t.messages[..n], Cost))
    ensures Detached(t).result == t.result && Detached(t).usage == t.usage && Detached(t).toolsUsed == t.toolsUsed
  {
    n := TrailingText(t.messages);
  }

  lemma {:induction false} TrailingText(ms: seq<Message>) returns (n: nat)
    ensures n <= |ms| && WithoutTrailingText(ms) == ms[..n]
    ensures n > 0 ==> ms[n - 1].kind != Text
    ensures forall i :: n <= i < |ms| ==> ms[i].kind == Text
    decreases |ms|
  {
    n := |ms|;
    if ms != [] && ms[|ms| - 1].kind == Text {
      n := TrailingText(ms[..|ms| - 1]);
      assert ms[..|ms| - 1][..n] == ms[..n];
    } else {
      assert ms[..n] == ms;
    }
  }
}
