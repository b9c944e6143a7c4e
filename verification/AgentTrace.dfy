/** The trace of an agent run: streamed messages merged into blocks while cost, time, usage
    and the answer text are kept up to date. Costs and durations are exact reals; tool
    names are given without their technical namespace. */
module AgentTrace {
  import opened Wrappers
  import opened AgentUsage
  import opened PythonText

  datatype Kind = Text | Audio | Image | Video | Tool

  datatype Message = Message(
    kind: Kind,
    content: string,
    toolName: Option<string>,
    hasArguments: bool,
    callId: Option<string>,
    time: real,
    cost: real,
    success: bool,
    usage: Option<Usage>,
    streamId: Option<string>,
    snapshot: bool,
    complete: Option<bool>)

  datatype Trace = Trace(
    messages: seq<Message>,
    time: real,
    result: string,
    cost: real,
    usage: Usage,
    toolsUsed: seq<string>)

  const EMPTY_TRACE := Trace([], 0.0, "", 0.0, EMPTY, [])

  predicate Truthy(s: Option<string>) { s.Some? && s.value != "" }

  predicate Visible(m: Message) {
    !Blank(m.content) || (m.kind == Tool && m.hasArguments)
  }

  /** The first block that an identified message continues, or `|ms|` when there is none. */
  function FindStream(ms: seq<Message>, id: Option<string>): (k: nat)
    ensures k <= |ms|
    ensures k < |ms| ==> Truthy(id) && ms[k].streamId == id
    ensures Truthy(id) ==> forall i :: 0 <= i < k ==> ms[i].streamId != id
  {
    if !Truthy(id) then |ms|
    else if ms == [] then 0
    else if ms[0].streamId == id then 0
    else 1 + FindStream(ms[1..], id)
  }

  function TextOf(ms: seq<Message>): string {
    if ms == [] then ""
    else TextOf(ms[..|ms| - 1]) + (if ms[|ms| - 1].kind == Text then ms[|ms| - 1].content else "")
  }

  predicate SameToolCall(existing: Message, m: Message) {
    m.snapshot && m.callId.Some? && existing.kind == Tool && m.kind == Tool && existing.callId == m.callId
  }

  /** A streamed message may not change its type or tool. */
  predicate Contradicts(existing: Message, m: Message) {
    existing.kind != m.kind || (existing.toolName != m.toolName && !SameToolCall(existing, m))
  }

  function Rename(names: seq<string>, from: Option<string>, to: string): seq<string> {
    seq(|names|, i requires 0 <= i < |names| => if Some(names[i]) == from then to else names[i])
  }

  /** The running total once a block's usage `previous` is replaced by `u`. */
  function Replaced(total: Usage, previous: Option<Usage>, u: Usage): Usage {
    var replaced := if previous.Some? then previous.value else EMPTY;
    var merged := Merged(total, u);
    Usage(Minus(merged.counters, replaced.counters), merged.tokenQuality, merged.costQuality)
  }

  /** An identified block is replaced by a cumulative snapshot. */
  function ReplaceBlock(t: Trace, k: nat, m: Message): Trace
    requires k < |t.messages|
  {
    var existing := t.messages[k];
    var messages := t.messages[k := m];
    Trace(messages,
          t.time + (m.time - existing.time),
          if m.kind == Text then TextOf(messages) else t.result,
          t.cost + (m.cost - existing.cost),
          if m.usage.Some? then Replaced(t.usage, existing.usage, m.usage.value) else t.usage,
          if existing.toolName != m.toolName && Truthy(m.toolName)
          then Rename(t.toolsUsed, existing.toolName, m.toolName.value)
          else t.toolsUsed)
  }

  /** The totals and the text take the message in. */
  function TakeIn(t: Trace, m: Message, isNew: bool): Trace {
    t.(cost := t.cost + m.cost,
       usage := if m.usage.Some? then Merged(t.usage, m.usage.value) else t.usage,
       time := t.time + m.time,
       result := Longer(t.result, m),
       toolsUsed := if isNew && Truthy(m.toolName) then t.toolsUsed + [m.toolName.value] else t.toolsUsed)
  }

  /** A fragment joins a block. The block's own usage is left as it was. */
  function Joined(block: Message, m: Message): Message {
    block.(content := block.content + m.content,
           cost := block.cost + m.cost,
           time := block.time + m.time,
           complete := if m.complete.Some? then m.complete else block.complete,
           success := block.success && m.success)
  }

  predicate EmptyToolStart(m: Message) {
    m.kind == Tool && m.streamId.Some? && m.callId.Some?
  }

  predicate JoinsLast(t: Trace, m: Message) {
    && m.kind == Text && m.streamId.None? && t.messages != []
    && t.messages[|t.messages| - 1].kind == Text && t.messages[|t.messages| - 1].streamId.None?
  }

  /** The message is counted but leaves no block. */
  predicate Dropped(t: Trace, m: Message) {
    FindStream(t.messages, m.streamId) == |t.messages| && !Visible(m) && !EmptyToolStart(m)
  }

  /** Adds one message; nothing when it is refused. */
  function Add(t: Trace, m: Message): Option<Trace> {
    var k := FindStream(t.messages, m.streamId);
    var n := |t.messages|;
    if k < n && Contradicts(t.messages[k], m) then None
    else if k < n && m.snapshot then Some(ReplaceBlock(t, k, m))
    else
      var counted := TakeIn(t, m, k == n);
      if Dropped(t, m) then Some(counted)
      else if k < n then Some(counted.(messages := t.messages[k := Joined(t.messages[k], m)]))
      else if JoinsLast(t, m) then Some(counted.(messages := t.messages[n - 1 := Joined(t.messages[n - 1], m)]))
      else Some(counted.(messages := t.messages + [m]))
  }

  // ----- sums over the blocks -----

  /** What a block contributes to the totals. */
  datatype Measure =
    Cost | Time | Input | Output | CacheRead | CacheWrite | Reasoning | Requests | ToolCalls | UsageCost

  function Counter(u: Usage, f: Measure): real {
    match f
    case Cost => 0.0
    case Time => 0.0
    case Input => u.counters.input as real
    case Output => u.counters.output as real
    case CacheRead => u.counters.cacheRead as real
    case CacheWrite => u.counters.cacheWrite as real
    case Reasoning => u.counters.reasoning as real
    case Requests => u.counters.requests as real
    case ToolCalls => u.counters.toolCalls as real
    case UsageCost => u.counters.cost
  }

  function UsageOf(m: Message): Usage {
    if m.usage.Some? then m.usage.value else EMPTY
  }

  function Of(m: Message, f: Measure): real {
    match f
    case Cost => m.cost
    case Time => m.time
    case _ => Counter(UsageOf(m), f)
  }

  function Whole(xs: seq<real>): real {
    if xs == [] then 0.0 else Whole(xs[..|xs| - 1]) + xs[|xs| - 1]
  }

  function Measures(ms: seq<Message>, f: Measure): seq<real> {
    seq(|ms|, i requires 0 <= i < |ms| => Of(ms[i], f))
  }

  /** The sum of a measure over the blocks. */
  function Sum(ms: seq<Message>, f: Measure): real { Whole(Measures(ms, f)) }

  lemma {:induction false} WholeUpdated(xs: seq<real>, k: nat, x: real)
    requires k < |xs|
    ensures Whole(xs[k := x]) == Whole(xs) - xs[k] + x
    decreases |xs|
  {
    var n := |xs| - 1;
    if k == n {
      assert xs[k := x][..n] == xs[..n];
    } else {
      assert xs[k := x][..n] == xs[..n][k := x];
      WholeUpdated(xs[..n], k, x);
    }
  }

  lemma {:induction false} PartAtMostWhole(xs: seq<real>, k: nat)
    requires k < |xs| && forall i :: 0 <= i < |xs| ==> 0.0 <= xs[i]
    ensures xs[k] <= Whole(xs)
    decreases |xs|
  {
    var n := |xs| - 1;
    if k < n {
      PartAtMostWhole(xs[..n], k);
    } else if k > 0 {
      PartAtMostWhole(xs[..n], k - 1);
    }
  }

  lemma SumAppended(ms: seq<Message>, m: Message, f: Measure)
    ensures Sum(ms + [m], f) == Sum(ms, f) + Of(m, f)
  {
    assert Measures(ms + [m], f) == Measures(ms, f) + [Of(m, f)];
    assert (Measures(ms, f) + [Of(m, f)])[..|ms|] == Measures(ms, f);
  }

  lemma SumUpdated(ms: seq<Message>, k: nat, m: Message, f: Measure)
    requires k < |ms|
    ensures Sum(ms[k := m], f) == Sum(ms, f) - Of(ms[k], f) + Of(m, f)
  {
    assert Measures(ms[k := m], f) == Measures(ms, f)[k := Of(m, f)];
    WholeUpdated(Measures(ms, f), k, Of(m, f));
  }

  lemma SumSplit(ms: seq<Message>, f: Measure)
    requires ms != []
    ensures Sum(ms, f) == Sum(ms[..|ms| - 1], f) + Of(ms[|ms| - 1], f)
  {
    assert Measures(ms, f)[..|ms| - 1] == Measures(ms[..|ms| - 1], f);
  }

  predicate IsCounter(f: Measure) { f != Cost && f != Time }

  lemma BlockAtMostSum(ms: seq<Message>, k: nat, f: Measure)
    requires k < |ms| && IsCounter(f)
    ensures 0.0 <= Of(ms[k], f) <= Sum(ms, f)
  {
    forall i | 0 <= i < |ms|
      ensures 0.0 <= Of(ms[i], f)
    {
      CounterNatural(UsageOf(ms[i]), f);
    }
    PartAtMostWhole(Measures(ms, f), k);
  }

  lemma CounterNatural(u: Usage, f: Measure)
    ensures 0.0 <= Counter(u, f)
  {
  }

  lemma CounterMerged(a: Usage, b: Usage, f: Measure)
    ensures Counter(Merged(a, b), f) == Counter(a, f) + Counter(b, f)
  {
  }

  /** The value of one counter in `Replaced`, with the clamp spelt out. */
  lemma CounterReplaced(total: Usage, previous: Option<Usage>, u: Usage, f: Measure)
    ensures var p := if previous.Some? then previous.value else EMPTY;
            var d := Counter(total, f) + Counter(u, f) - Counter(p, f);
            Counter(Replaced(total, previous, u), f) == if d >= 0.0 then d else 0.0
  {
  }

  /** What the messages that left no block contributed. */
  datatype Lost = Lost(cost: real, time: real)

  function LostBy(t: Trace, m: Message): Lost {
    if Dropped(t, m) then Lost(m.cost, m.time) else Lost(0.0, 0.0)
  }

  /** One total against the blocks: cost and time are exact, a usage counter is at least the
      sum over the blocks. */
  ghost predicate Fits(t: Trace, lost: Lost, f: Measure) {
    match f
    case Cost => t.cost == Sum(t.messages, f) + lost.cost
    case Time => t.time == Sum(t.messages, f) + lost.time
    case _ => Sum(t.messages, f) <= Counter(t.usage, f)
  }

  ghost predicate Balanced(t: Trace, lost: Lost) {
    forall f :: Fits(t, lost, f)
  }

  /** Subtracting the usage of a replaced block never goes below zero, so that the clamp has
      no effect. */
  lemma ClampIdle(t: Trace, lost: Lost, k: nat, u: Usage, f: Measure)
    requires Balanced(t, lost) && k < |t.messages| && IsCounter(f)
    ensures Counter(Replaced(t.usage, t.messages[k].usage, u), f)
            == Counter(t.usage, f) + Counter(u, f) - Of(t.messages[k], f)
  {
    assert Fits(t, lost, f);
    BlockAtMostSum(t.messages, k, f);
    CounterReplaced(t.usage, t.messages[k].usage, u, f);
  }

  lemma SnapshotFits(t: Trace, lost: Lost, k: nat, m: Message, f: Measure)
    requires Balanced(t, lost) && k < |t.messages|
    ensures Fits(ReplaceBlock(t, k, m), lost, f)
  {
    assert Fits(t, lost, f);
    SumUpdated(t.messages, k, m, f);
    if IsCounter(f) {
      BlockAtMostSum(t.messages, k, f);
      if m.usage.Some? {
        ClampIdle(t, lost, k, m.usage.value, f);
      }
    }
  }

  /** A message that only joins or follows the blocks adds its measure to both sides. */
  lemma TakeInFits(t: Trace, lost: Lost, m: Message, isNew: bool, messages: seq<Message>, f: Measure)
    requires Fits(t, lost, f)
    requires Sum(t.messages, f) <= Sum(messages, f) <= Sum(t.messages, f) + Of(m, f) || !IsCounter(f)
    requires !IsCounter(f) ==> Sum(messages, f) == Sum(t.messages, f) + Of(m, f)
    ensures Fits(TakeIn(t, m, isNew).(messages := messages), lost, f)
  {
    if IsCounter(f) {
      CounterTakenIn(t, m, isNew, f);
    }
  }

  lemma CounterTakenIn(t: Trace, m: Message, isNew: bool, f: Measure)
    requires IsCounter(f)
    ensures Counter(TakeIn(t, m, isNew).usage, f) == Counter(t.usage, f) + Of(m, f)
  {
    if m.usage.Some? {
      CounterMerged(t.usage, m.usage.value, f);
    }
  }

  lemma JoinFits(t: Trace, lost: Lost, m: Message, isNew: bool, k: nat, f: Measure)
    requires Fits(t, lost, f) && k < |t.messages|
    ensures Fits(TakeIn(t, m, isNew).(messages := t.messages[k := Joined(t.messages[k], m)]), lost, f)
  {
    SumUpdated(t.messages, k, Joined(t.messages[k], m), f);
    if IsCounter(f) {
      CounterNatural(UsageOf(m), f);
    }
    TakeInFits(t, lost, m, isNew, t.messages[k := Joined(t.messages[k], m)], f);
  }

  lemma FollowFits(t: Trace, lost: Lost, m: Message, f: Measure)
    requires Fits(t, lost, f)
    ensures Fits(TakeIn(t, m, true).(messages := t.messages + [m]), lost, f)
  {
    SumAppended(t.messages, m, f);
    if IsCounter(f) {
      CounterNatural(UsageOf(m), f);
    }
    TakeInFits(t, lost, m, true, t.messages + [m], f);
  }

  lemma DropFits(t: Trace, lost: Lost, m: Message, f: Measure)
    requires Fits(t, lost, f)
    ensures Fits(TakeIn(t, m, true), Lost(lost.cost + m.cost, lost.time + m.time), f)
  {
    if IsCounter(f) {
      CounterNatural(UsageOf(m), f);
      CounterTakenIn(t, m, true, f);
    }
  }

  function AllLost(a: Lost, b: Lost): Lost { Lost(a.cost + b.cost, a.time + b.time) }

  lemma AddFits(t: Trace, lost: Lost, m: Message, f: Measure)
    requires Balanced(t, lost) && Add(t, m).Some?
    ensures Fits(Add(t, m).value, AllLost(lost, LostBy(t, m)), f)
  {
    assert Fits(t, lost, f);
    var k := FindStream(t.messages, m.streamId);
    var n := |t.messages|;
    if k < n && m.snapshot {
      SnapshotFits(t, lost, k, m, f);
    } else if Dropped(t, m) {
      DropFits(t, lost, m, f);
    } else if k < n {
      JoinFits(t, lost, m, false, k, f);
    } else if JoinsLast(t, m) {
      JoinFits(t, lost, m, true, n - 1, f);
    } else {
      FollowFits(t, lost, m, f);
    }
  }

  lemma AddBalanced(t: Trace, lost: Lost, m: Message)
    requires Balanced(t, lost) && Add(t, m).Some?
    ensures Balanced(Add(t, m).value, AllLost(lost, LostBy(t, m)))
  {
    forall f
      ensures Fits(Add(t, m).value, AllLost(lost, LostBy(t, m)), f)
    {
      AddFits(t, lost, m, f);
    }
  }

  // ----- the answer text -----

  /** The visible characters of a text, without their order. */
  function Ink(s: string): multiset<char> {
    if s == "" then multiset{}
    else Ink(s[..|s| - 1]) + (if IsSpace(s[|s| - 1]) then multiset{} else multiset{s[|s| - 1]})
  }

  lemma {:induction false} InkAppend(a: string, b: string)
    ensures Ink(a + b) == Ink(a) + Ink(b)
    decreases |b|
  {
    if b == "" {
      assert a + b == a;
    } else {
      assert (a + b)[..|a + b| - 1] == a + b[..|b| - 1];
      InkAppend(a, b[..|b| - 1]);
    }
  }

  lemma {:induction false} BlankHasNoInk(s: string)
    requires Blank(s)
    ensures Ink(s) == multiset{}
    decreases |s|
  {
    if s != "" { BlankHasNoInk(s[..|s| - 1]); }
  }

  function MessageInk(m: Message): multiset<char> {
    if m.kind == Text then Ink(m.content) else multiset{}
  }

  function Union(xs: seq<multiset<char>>): multiset<char> {
    if xs == [] then multiset{} else Union(xs[..|xs| - 1]) + xs[|xs| - 1]
  }

  function Inks(ms: seq<Message>): seq<multiset<char>> {
    seq(|ms|, i requires 0 <= i < |ms| => MessageInk(ms[i]))
  }

  /** The visible characters of the text blocks. */
  function TextInk(ms: seq<Message>): multiset<char> { Union(Inks(ms)) }

  lemma {:induction false} TextInkOfText(ms: seq<Message>)
    ensures Ink(TextOf(ms)) == TextInk(ms)
    decreases |ms|
  {
    if ms != [] {
      var front, last := ms[..|ms| - 1], ms[|ms| - 1];
      TextInkOfText(front);
      InkAppend(TextOf(front), if last.kind == Text then last.content else "");
      assert Inks(ms)[..|ms| - 1] == Inks(front);
    }
  }

  lemma Exchange(a: multiset<char>, b: multiset<char>, c: multiset<char>, x: multiset<char>, y: multiset<char>)
    requires a + x == b + y
    ensures a + c + x == b + c + y
  {
    forall e
      ensures (a + c + x)[e] == (b + c + y)[e]
    {
      assert (a + x)[e] == (b + y)[e];
    }
  }

  lemma Cancel(a: multiset<char>, b: multiset<char>, c: multiset<char>, x: multiset<char>)
    requires a + x == b + (x + c)
    ensures a == b + c
  {
    forall e
      ensures a[e] == (b + c)[e]
    {
      assert (a + x)[e] == (b + (x + c))[e];
    }
  }

  lemma {:induction false} UnionUpdated(xs: seq<multiset<char>>, k: nat, x: multiset<char>)
    requires k < |xs|
    ensures Union(xs[k := x]) + xs[k] == Union(xs) + x
    decreases |xs|
  {
    var n := |xs| - 1;
    var ys := xs[k := x];
    if k == n {
      assert ys[..n] == xs[..n];
    } else {
      assert ys[..n] == xs[..n][k := x];
      UnionUpdated(xs[..n], k, x);
      Exchange(Union(ys[..n]), Union(xs[..n]), xs[n], xs[k], x);
    }
  }

  lemma TextInkUpdated(ms: seq<Message>, k: nat, m: Message)
    requires k < |ms|
    ensures TextInk(ms[k := m]) + MessageInk(ms[k]) == TextInk(ms) + MessageInk(m)
  {
    assert Inks(ms[k := m]) == Inks(ms)[k := MessageInk(m)];
    UnionUpdated(Inks(ms), k, MessageInk(m));
  }

  /** The answer and the text blocks show the same characters. */
  ghost predicate SameInk(t: Trace) {
    Ink(t.result) == TextInk(t.messages)
  }

  function Longer(result: string, m: Message): string {
    if m.kind == Text then result + m.content else result
  }

  lemma LongerInk(result: string, m: Message)
    ensures Ink(Longer(result, m)) == Ink(result) + MessageInk(m)
  {
    if m.kind == Text {
      InkAppend(result, m.content);
    }
  }

  lemma JoinedInk(block: Message, m: Message)
    requires block.kind == m.kind
    ensures MessageInk(Joined(block, m)) == MessageInk(block) + MessageInk(m)
  {
    if m.kind == Text {
      InkAppend(block.content, m.content);
    }
  }

  lemma JoinInk(t: Trace, k: nat, m: Message)
    requires SameInk(t) && k < |t.messages| && t.messages[k].kind == m.kind
    ensures Ink(Longer(t.result, m)) == TextInk(t.messages[k := Joined(t.messages[k], m)])
  {
    var joined := Joined(t.messages[k], m);
    LongerInk(t.result, m);
    JoinedInk(t.messages[k], m);
    TextInkUpdated(t.messages, k, joined);
    Cancel(TextInk(t.messages[k := joined]), TextInk(t.messages), MessageInk(m), MessageInk(t.messages[k]));
  }

  lemma SnapshotInk(t: Trace, k: nat, m: Message)
    requires SameInk(t) && k < |t.messages| && t.messages[k].kind == m.kind
    ensures SameInk(ReplaceBlock(t, k, m))
  {
    TextInkOfText(t.messages[k := m]);
    if m.kind != Text {
      TextInkUpdated(t.messages, k, m);
      Cancel(TextInk(t.messages[k := m]), TextInk(t.messages), multiset{}, multiset{});
    }
  }

  lemma NewBlockInk(t: Trace, m: Message)
    requires SameInk(t)
    ensures Ink(Longer(t.result, m)) == TextInk(t.messages + [m])
  {
    LongerInk(t.result, m);
    assert Inks(t.messages + [m]) == Inks(t.messages) + [MessageInk(m)];
    assert (Inks(t.messages) + [MessageInk(m)])[..|t.messages|] == Inks(t.messages);
  }

  lemma AddSameInk(t: Trace, m: Message)
    requires SameInk(t) && Add(t, m).Some?
    ensures SameInk(Add(t, m).value)
  {
    var k := FindStream(t.messages, m.streamId);
    var n := |t.messages|;
    if k < n && m.snapshot {
      SnapshotInk(t, k, m);
    } else if k < n {
      JoinInk(t, k, m);
    } else if Dropped(t, m) {
      LongerInk(t.result, m);
      BlankHasNoInk(m.content);
    } else if JoinsLast(t, m) {
      JoinInk(t, n - 1, m);
    } else {
      NewBlockInk(t, m);
    }
  }

  // ----- whole runs -----

  /** A run of messages; a refused message leaves the trace unchanged. */
  function AddAll(t: Trace, ms: seq<Message>): Trace
    decreases |ms|
  {
    if ms == [] then t else AddAll(if Add(t, ms[0]).Some? then Add(t, ms[0]).value else t, ms[1..])
  }

  function LostByAll(t: Trace, ms: seq<Message>): Lost
    decreases |ms|
  {
    if ms == [] then Lost(0.0, 0.0)
    else if Add(t, ms[0]).None? then LostByAll(t, ms[1..])
    else AllLost(LostBy(t, ms[0]), LostByAll(Add(t, ms[0]).value, ms[1..]))
  }

  lemma LossAssociative(a: Lost, b: Lost, c: Lost)
    ensures AllLost(AllLost(a, b), c) == AllLost(a, AllLost(b, c))
  {
  }

  lemma {:induction false} RunBalanced(t: Trace, lost: Lost, ms: seq<Message>)
    requires Balanced(t, lost)
    ensures Balanced(AddAll(t, ms), AllLost(lost, LostByAll(t, ms)))
    decreases |ms|
  {
    if ms == [] {
      assert AllLost(lost, Lost(0.0, 0.0)) == lost;
    } else if Add(t, ms[0]).None? {
      RunBalanced(t, lost, ms[1..]);
    } else {
      var u := Add(t, ms[0]).value;
      AddBalanced(t, lost, ms[0]);
      RunBalanced(u, AllLost(lost, LostBy(t, ms[0])), ms[1..]);
      LossAssociative(lost, LostBy(t, ms[0]), LostByAll(u, ms[1..]));
    }
  }

  lemma {:induction false} RunSameInk(t: Trace, ms: seq<Message>)
    requires SameInk(t)
    ensures SameInk(AddAll(t, ms))
    decreases |ms|
  {
    if ms != [] {
      if Add(t, ms[0]).None? {
        RunSameInk(t, ms[1..]);
      } else {
        AddSameInk(t, ms[0]);
        RunSameInk(Add(t, ms[0]).value, ms[1..]);
      }
    }
  }

  /** For every sequence of messages: cost and time are the sums over the blocks plus those of
      the dropped messages, and usage counters are at least the sums over the blocks. */
  lemma Accounting(ms: seq<Message>)
    ensures Balanced(AddAll(EMPTY_TRACE, ms), LostByAll(EMPTY_TRACE, ms))
  {
    var none := Lost(0.0, 0.0);
    assert Balanced(EMPTY_TRACE, none) by {
      assert forall f :: Fits(EMPTY_TRACE, none, f);
    }
    RunBalanced(EMPTY_TRACE, none, ms);
    assert AllLost(none, LostByAll(EMPTY_TRACE, ms)) == LostByAll(EMPTY_TRACE, ms);
  }

  /** For every sequence of messages the answer shows the characters of the text blocks. */
  lemma AnswerShowsText(ms: seq<Message>)
    ensures var t := AddAll(EMPTY_TRACE, ms); Ink(t.result) == Ink(TextOf(t.messages))
  {
    RunSameInk(EMPTY_TRACE, ms);
    TextInkOfText(AddAll(EMPTY_TRACE, ms).messages);
  }
}
