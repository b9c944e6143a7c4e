/** What one streamed message does to the trace, field by field, and what a stream of text
    fragments amounts to: their concatenation in order of arrival. */
module AgentStream {
  import opened Wrappers
  import opened AgentUsage
  import opened AgentTrace
  import opened PythonText

  /** Block `k` is the first one with the identifier of the message. */
  ghost predicate Continues(t: Trace, m: Message, k: int) {
    && 0 <= k < |t.messages| && m.streamId.Some? && m.streamId.value != "" && t.messages[k].streamId == m.streamId
    && forall j :: 0 <= j < k ==> t.messages[j].streamId != m.streamId
  }

  ghost predicate ContinuesNone(t: Trace, m: Message) {
    m.streamId.Some? && m.streamId.value != "" ==>
      forall j :: 0 <= j < |t.messages| ==> t.messages[j].streamId != m.streamId
  }

  /** Text without an identifier follows text without an identifier. */
  ghost predicate FollowsText(t: Trace, m: Message) {
    && t.messages != [] && m.kind == Text && m.streamId.None?
    && t.messages[|t.messages| - 1].kind == Text && t.messages[|t.messages| - 1].streamId.None?
  }

  /** The message has something to show, or opens a tool call that will. */
  ghost predicate Opens(m: Message) {
    || (exists i :: 0 <= i < |m.content| && !IsSpace(m.content[i]))
    || (m.kind == Tool && (m.hasArguments || (m.streamId.Some? && m.callId.Some?)))
  }

  /** The message has another kind than the block, or another tool without being a snapshot of
      the same call. */
  ghost predicate Differs(block: Message, m: Message) {
    || block.kind != m.kind
    || (block.toolName != m.toolName
        && !(m.snapshot && block.kind == m.kind == Tool && m.callId.Some? && block.callId == m.callId))
  }

  ghost predicate OthersSame(before: seq<Message>, after: seq<Message>, k: int) {
    |after| == |before| && forall j :: 0 <= j < |before| && j != k ==> after[j] == before[j]
  }

  /** The block with the fragment behind its own content. */
  ghost predicate Extended(block: Message, m: Message, after: Message) {
    && after.content == block.content + m.content
    && after.cost == block.cost + m.cost && after.time == block.time + m.time
    && (after.success <==> block.success && m.success)
    && after.complete == (if m.complete.Some? then m.complete else block.complete)
    && after.kind == block.kind && after.toolName == block.toolName && after.hasArguments == block.hasArguments
    && after.callId == block.callId && after.usage == block.usage && after.streamId == block.streamId
    && after.snapshot == block.snapshot
  }

  ghost predicate CountersAdded(a: Count, b: Count, c: Count) {
    && c.input == a.input + b.input && c.output == a.output + b.output
    && c.cacheRead == a.cacheRead + b.cacheRead && c.cacheWrite == a.cacheWrite + b.cacheWrite
    && c.reasoning == a.reasoning + b.reasoning && c.requests == a.requests + b.requests
    && c.toolCalls == a.toolCalls + b.toolCalls && c.cost == a.cost + b.cost
  }

  ghost predicate Swapped(total: int, was: int, now: int, u: int) {
    u == if total + now >= was then total + now - was else 0
  }

  /** Each counter loses what it held for the block and gains what the message reports. */
  ghost predicate CountersReplaced(t: Count, was: Count, now: Count, u: Count) {
    && Swapped(t.input, was.input, now.input, u.input) && Swapped(t.output, was.output, now.output, u.output)
    && Swapped(t.cacheRead, was.cacheRead, now.cacheRead, u.cacheRead)
    && Swapped(t.cacheWrite, was.cacheWrite, now.cacheWrite, u.cacheWrite)
    && Swapped(t.reasoning, was.reasoning, now.reasoning, u.reasoning)
    && Swapped(t.requests, was.requests, now.requests, u.requests)
    && Swapped(t.toolCalls, was.toolCalls, now.toolCalls, u.toolCalls)
    && u.cost == if t.cost + now.cost >= was.cost then t.cost + now.cost - was.cost else 0.0
  }

  /** A fragment or a first message: it is added to the totals, and to one block or none. */
  ghost predicate DeltaTaken(t: Trace, m: Message, u: Trace) {
    && u.cost == t.cost + m.cost && u.time == t.time + m.time
    && u.result == (if m.kind == Text then t.result + m.content else t.result)
    && (m.usage.None? ==> u.usage == t.usage)
    && (m.usage.Some? ==> CountersAdded(t.usage.counters, m.usage.value.counters, u.usage.counters))
    && (forall k :: Continues(t, m, k) ==>
          && OthersSame(t.messages, u.messages, k) && Extended(t.messages[k], m, u.messages[k])
          && u.toolsUsed == t.toolsUsed)
    && (ContinuesNone(t, m) ==>
          && u.toolsUsed == (if m.toolName.Some? && m.toolName.value != "" then t.toolsUsed + [m.toolName.value]
                             else t.toolsUsed)
          && (!Opens(m) ==> u.messages == t.messages)
          && (Opens(m) && FollowsText(t, m) ==>
                && OthersSame(t.messages, u.messages, |t.messages| - 1)
                && Extended(t.messages[|t.messages| - 1], m, u.messages[|t.messages| - 1]))
          && (Opens(m) && !FollowsText(t, m) ==> u.messages == t.messages + [m]))
  }

  /** A snapshot: the block becomes the message, and the totals change by the difference. */
  ghost predicate SnapshotTaken(t: Trace, m: Message, k: nat, u: Trace)
    requires k < |t.messages|
  {
    var block := t.messages[k];
    && u.messages == t.messages[k := m]
    && u.cost == t.cost + m.cost - block.cost && u.time == t.time + m.time - block.time
    && u.result == (if m.kind == Text then TextOf(u.messages) else t.result)
    && (m.usage.None? ==> u.usage == t.usage)
    && (m.usage.Some? ==>
          CountersReplaced(t.usage.counters, if block.usage.Some? then block.usage.value.counters else NONE,
                           m.usage.value.counters, u.usage.counters))
    && |u.toolsUsed| == |t.toolsUsed|
    && (forall i :: 0 <= i < |t.toolsUsed| ==>
          u.toolsUsed[i] == if block.toolName != m.toolName && m.toolName.Some? && m.toolName.value != ""
                               && block.toolName == Some(t.toolsUsed[i])
                            then m.toolName.value else t.toolsUsed[i])
  }

  lemma VisibleMeaning(m: Message)
    ensures Visible(m) || EmptyToolStart(m) <==> Opens(m)
  {
  }

  /** A message is refused exactly when the block that it continues differs from it. */
  lemma RefusedMeaning(t: Trace, m: Message)
    ensures Add(t, m).None? <==> exists k :: Continues(t, m, k) && Differs(t.messages[k], m)
  {
    var k := FindStream(t.messages, m.streamId);
    if k < |t.messages| {
      assert Continues(t, m, k);
    }
    if j :| Continues(t, m, j) && Differs(t.messages[j], m) {
      ContinuedBlock(t, m, j);
    }
  }

  lemma ContinuedBlock(t: Trace, m: Message, k: nat)
    requires Continues(t, m, k)
    ensures FindStream(t.messages, m.streamId) == k
  {
  }

  lemma NoneContinued(t: Trace, m: Message)
    ensures ContinuesNone(t, m) <==> FindStream(t.messages, m.streamId) == |t.messages|
  {
  }

  /** What an accepted message does that is no snapshot of a block. */
  lemma DeltaMeaning(t: Trace, m: Message)
    requires Add(t, m).Some? && (m.snapshot ==> ContinuesNone(t, m))
    ensures DeltaTaken(t, m, Add(t, m).value)
  {
    NoneContinued(t, m);
    VisibleMeaning(m);
    var u := Add(t, m).value;
    forall k | Continues(t, m, k)
      ensures OthersSame(t.messages, u.messages, k) && Extended(t.messages[k], m, u.messages[k])
      ensures u.toolsUsed == t.toolsUsed
    {
      ContinuedBlock(t, m, k);
    }
  }

  lemma SnapshotMeaning(t: Trace, m: Message, k: nat)
    requires Add(t, m).Some? && m.snapshot && Continues(t, m, k)
    ensures SnapshotTaken(t, m, k, Add(t, m).value)
  {
    ContinuedBlock(t, m, k);
  }

  /** What adding a message means, in all cases. */
  lemma AddMeaning(t: Trace, m: Message)
    ensures Add(t, m).None? <==> exists k :: Continues(t, m, k) && Differs(t.messages[k], m)
    ensures Add(t, m).Some? && (m.snapshot ==> ContinuesNone(t, m)) ==> DeltaTaken(t, m, Add(t, m).value)
    ensures Add(t, m).Some? && m.snapshot ==>
              forall k :: Continues(t, m, k) ==> SnapshotTaken(t, m, k, Add(t, m).value)
  {
    RefusedMeaning(t, m);
    if Add(t, m).Some? {
      if m.snapshot ==> ContinuesNone(t, m) { DeltaMeaning(t, m); }
      if m.snapshot {
        forall k | Continues(t, m, k)
          ensures SnapshotTaken(t, m, k, Add(t, m).value)
        {
          SnapshotMeaning(t, m, k);
        }
      }
    }
  }

  /** The text of blocks is their contents in order. */
  lemma {:induction false} TextInOrder(a: seq<Message>, b: seq<Message>)
    ensures TextOf(a + b) == TextOf(a) + TextOf(b)
    decreases |b|
  {
    if b == [] {
      assert a + b == a;
    } else {
      TextInOrder(a, b[..|b| - 1]);
      assert (a + b)[..|a + b| - 1] == a + b[..|b| - 1];
    }
  }

  lemma TextOfOne(m: Message)
    ensures TextOf([m]) == if m.kind == Text then m.content else ""
  {
    assert [m][..0] == [];
  }

  // ----- a stream of text -----

  /** The contents of the fragments, one behind the other. */
  function Contents(ms: seq<Message>): string {
    if ms == [] then "" else Contents(ms[..|ms| - 1]) + ms[|ms| - 1].content
  }

  ghost predicate Fragments(ms: seq<Message>, id: Option<string>) {
    forall i :: 0 <= i < |ms| ==>
      ms[i].kind == Text && ms[i].toolName.None? && !ms[i].snapshot && ms[i].streamId == id
  }

  lemma {:induction false} AddAllSnoc(t: Trace, ms: seq<Message>, m: Message)
    ensures var u := AddAll(t, ms);
            AddAll(t, ms + [m]) == if Add(u, m).Some? then Add(u, m).value else u
    decreases |ms|
  {
    if ms == [] {
      assert [] + [m] == [m] && [m][1..] == [];
    } else {
      var next := if Add(t, ms[0]).Some? then Add(t, ms[0]).value else t;
      assert (ms + [m])[1..] == ms[1..] + [m];
      AddAllSnoc(next, ms[1..], m);
    }
  }

  /** What the fragments have come to: one more block, and the answer continued. */
  ghost predicate Streamed(t: Trace, ms: seq<Message>, id: Option<string>, u: Trace) {
    && |u.messages| == |t.messages| + 1 && u.messages[..|t.messages|] == t.messages
    && u.result == t.result + Contents(ms) && u.toolsUsed == t.toolsUsed
    && var block := u.messages[|t.messages|];
       && block.kind == Text && block.toolName.None? && block.streamId == id
       && block.content == Contents(ms)
       && (block.success <==> forall i :: 0 <= i < |ms| ==> ms[i].success)
  }

  /** The stream is new: no block has its identifier, or the last block is not joined. */
  ghost predicate NewStream(t: Trace, id: Option<string>) {
    && (id.Some? ==> id.value != "" && forall j :: 0 <= j < |t.messages| ==> t.messages[j].streamId != id)
    && (id.None? && t.messages != [] ==>
          t.messages[|t.messages| - 1].kind != Text || t.messages[|t.messages| - 1].streamId.Some?)
  }

  lemma FirstFragment(t: Trace, m: Message, id: Option<string>)
    requires NewStream(t, id) && Fragments([m], id) && Opens(m)
    ensures Add(t, m).Some? && Streamed(t, [m], id, Add(t, m).value)
  {
    NoneContinued(t, m);
    assert Fragments([m], id)
        ==> [m][0].streamId == id && [m][0].kind == Text && [m][0].toolName.None? && ![m][0].snapshot;
    DeltaMeaning(t, m);
    Opened(t, m, id, Add(t, m).value);
  }

  lemma Opened(t: Trace, m: Message, id: Option<string>, u: Trace)
    requires u.messages == t.messages + [m] && u.result == t.result + m.content && u.toolsUsed == t.toolsUsed
    requires m.kind == Text && m.toolName.None? && m.streamId == id
    ensures Streamed(t, [m], id, u)
  {
    assert [m][..0] == [] && Contents([m]) == m.content;
  }

  lemma ContentsSnoc(ms: seq<Message>, m: Message)
    ensures Contents(ms + [m]) == Contents(ms) + m.content
    ensures (forall i :: 0 <= i < |ms + [m]| ==> (ms + [m])[i].success)
       <==> (forall i :: 0 <= i < |ms| ==> ms[i].success) && m.success
  {
    var all := ms + [m];
    assert all[..|ms|] == ms && all[|ms|] == m;
    assert forall i :: 0 <= i < |ms| ==> all[i] == ms[i];
  }

  /** Where the next fragment goes. */
  lemma NextPlace(t: Trace, ms: seq<Message>, m: Message, id: Option<string>, u: Trace)
    requires NewStream(t, id) && Streamed(t, ms, id, u)
    requires m.kind == Text && m.toolName.None? && !m.snapshot && m.streamId == id && (id.None? ==> Opens(m))
    ensures Add(u, m).Some?
    ensures var n := |t.messages|;
            || Continues(u, m, n)
            || (ContinuesNone(u, m) && FollowsText(u, m) && Opens(m) && |u.messages| - 1 == n)
  {
    var n := |t.messages|;
    assert forall j :: 0 <= j < n ==> u.messages[j] == u.messages[..n][j] == t.messages[j];
    if id.Some? {
      assert Continues(u, m, n);
      ContinuedBlock(u, m, n);
    } else {
      NoneContinued(u, m);
    }
  }

  lemma NextFragment(t: Trace, ms: seq<Message>, m: Message, id: Option<string>, u: Trace)
    requires NewStream(t, id) && Streamed(t, ms, id, u)
    requires m.kind == Text && m.toolName.None? && !m.snapshot && m.streamId == id && (id.None? ==> Opens(m))
    ensures Add(u, m).Some? && Streamed(t, ms + [m], id, Add(u, m).value)
  {
    NextPlace(t, ms, m, id, u);
    DeltaMeaning(u, m);
    Lengthened(t, ms, m, id, u, Add(u, m).value);
  }

  lemma Lengthened(t: Trace, ms: seq<Message>, m: Message, id: Option<string>, u: Trace, v: Trace)
    requires Streamed(t, ms, id, u) && m.kind == Text
    requires OthersSame(u.messages, v.messages, |t.messages|)
    requires Extended(u.messages[|t.messages|], m, v.messages[|t.messages|])
    requires v.result == u.result + m.content && v.toolsUsed == u.toolsUsed
    ensures Streamed(t, ms + [m], id, v)
  {
    ContentsSnoc(ms, m);
    assert v.messages[..|t.messages|] == u.messages[..|t.messages|];
    assert t.result + (Contents(ms) + m.content) == t.result + Contents(ms) + m.content;
  }

  /** Text fragments of one new stream, or without an identifier and with something to show,
      become one block that holds their contents in order of arrival; the answer continues
      with the same text, and the block failed if one fragment did. */
  lemma {:induction false} FragmentsConcatenate(t: Trace, ms: seq<Message>, id: Option<string>)
    requires ms != [] && NewStream(t, id) && Fragments(ms, id) && Opens(ms[0])
    requires id.None? ==> forall i :: 0 <= i < |ms| ==> Opens(ms[i])
    ensures Streamed(t, ms, id, AddAll(t, ms))
    decreases |ms|
  {
    var front, m := ms[..|ms| - 1], ms[|ms| - 1];
    assert ms == front + [m];
    AddAllSnoc(t, front, m);
    if front == [] {
      FirstFragment(t, m, id);
    } else {
      FragmentsConcatenate(t, front, id);
      NextFragment(t, front, m, id, AddAll(t, front));
    }
  }
}
