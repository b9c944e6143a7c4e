/** The accumulated result of an agent run, changed in place by each event. */
module AgentResult {
  import opened Wrappers
  import opened AgentUsage
  import opened AgentTrace
  import opened AgentStream
  import opened PythonText
  import opened TerminalText

  class Result {
    var messages: seq<Message>
    var time: real
    var result: string
    var cost: real
    var usage: Usage
    var toolsUsed: seq<string>

    ghost function View(): Trace
      reads this
    {
      Trace(messages, time, result, cost, usage, toolsUsed)
    }

    constructor ()
      ensures View() == EMPTY_TRACE
    {
      messages, time, result, cost, usage, toolsUsed := [], 0.0, "", 0.0, EMPTY, [];
    }

    /** The index of the block that an identified message continues. */
    method FindExisting(id: Option<string>) returns (k: nat)
      ensures k == FindStream(messages, id)
    {
      if !Truthy(id) { return |messages|; }
      k := 0;
      while k < |messages| && messages[k].streamId != id
        invariant k <= |messages|
        invariant FindStream(messages, id) == k + FindStream(messages[k..], id)
      {
        assert messages[k..][1..] == messages[k + 1..];
        k := k + 1;
      }
    }

    method JoinText() returns (text: string)
      ensures text == TextOf(messages)
    {
      text := "";
      for i := 0 to |messages|
        invariant text == TextOf(messages[..i])
      {
        assert messages[..i + 1][..i] == messages[..i];
        if messages[i].kind == Text {
          text := text + messages[i].content;
        }
      }
      assert messages[..|messages|] == messages;
    }

    method ReplaceWithSnapshot(k: nat, m: Message)
      requires k < |messages|
      modifies this
      ensures View() == ReplaceBlock(old(View()), k, m)
    {
      var existing := messages[k];
      if existing.toolName != m.toolName && Truthy(m.toolName) {
        toolsUsed := Rename(toolsUsed, existing.toolName, m.toolName.value);
      }
      cost := cost + (m.cost - existing.cost);
      time := time + (m.time - existing.time);
      if m.usage.Some? {
        usage := Replaced(usage, existing.usage, m.usage.value);
      }
      messages := messages[k := m];
      if m.kind == Text {
        result := JoinText();
      }
    }

    method CountMessage(m: Message, isNew: bool)
      modifies this`cost, this`usage, this`time, this`result, this`toolsUsed
      ensures View() == TakeIn(old(View()), m, isNew)
    {
      cost := cost + m.cost;
      if m.usage.Some? {
        usage := Merged(usage, m.usage.value);
      }
      time := time + m.time;
      if m.content != "" && m.kind == Text {
        result := result + m.content;
      } else if m.kind == Text {
        assert result + m.content == result;
      }
      if Truthy(m.toolName) && isNew {
        toolsUsed := toolsUsed + [m.toolName.value];
      }
    }

    /** Adds one message; `ok` is false when a streamed message changes its type or tool. */
    method AddMessage(m: Message) returns (ok: bool)
      modifies this
      ensures ok <==> Add(old(View()), m).Some?
      ensures View() == if ok then Add(old(View()), m).value else old(View())
      ensures !ok <==> exists k :: Continues(old(View()), m, k) && Differs(old(messages)[k], m)
      ensures ok && (m.snapshot ==> ContinuesNone(old(View()), m)) ==> DeltaTaken(old(View()), m, View())
      ensures ok && m.snapshot ==>
                forall k :: Continues(old(View()), m, k) ==> SnapshotTaken(old(View()), m, k, View())
    {
      AddMeaning(View(), m);
      var k := FindExisting(m.streamId);
      var n := |messages|;
      if k < n {
        if Contradicts(messages[k], m) { return false; }
        if m.snapshot {
          ReplaceWithSnapshot(k, m);
          return true;
        }
      }
      ok := true;
      CountMessage(m, k == n);
      if !Visible(m) && k == n && !EmptyToolStart(m) { return; }
      if k == n && m.kind == Text && m.streamId.None?
         && n > 0 && messages[n - 1].kind == Text && messages[n - 1].streamId.None? {
        k := n - 1;
      }
      if k < n {
        messages := messages[k := Joined(messages[k], m)];
      } else {
        messages := messages + [m];
      }
    }

    /** Removes the text blocks at the end, with their time and cost. */
    method DetachTrailingText() returns (elapsed: real, spent: real)
      modifies this
      ensures View() == Detached(old(View()))
      ensures elapsed == old(time) - time && spent == old(cost) - cost
    {
      elapsed, spent := 0.0, 0.0;
      while messages != [] && messages[|messages| - 1].kind == Text
        invariant WithoutTrailingText(messages) == WithoutTrailingText(old(messages))
        invariant elapsed == Sum(old(messages), Time) - Sum(messages, Time)
        invariant spent == Sum(old(messages), Cost) - Sum(messages, Cost)
        invariant time == old(time) && cost == old(cost) && result == old(result)
        invariant usage == old(usage) && toolsUsed == old(toolsUsed)
        decreases |messages|
      {
        var last := messages[|messages| - 1];
        SumSplit(messages, Time);
        SumSplit(messages, Cost);
        messages := messages[..|messages| - 1];
        elapsed := elapsed + last.time;
        spent := spent + last.cost;
      }
      time := time - elapsed;
      cost := cost - spent;
    }

    /** Walks the blocks from the last to the first; the collected list is kept in order. */
    method RebuildBlocks(final: string) returns (blocks: seq<Message>, inserted: bool)
      ensures blocks == Rebuild(messages, final, false) && inserted == AnyMatch(messages, final)
    {
      blocks, inserted := [], false;
      var i := |messages|;
      assert messages[..i] == messages;
      while i > 0
        invariant 0 <= i <= |messages|
        invariant Rebuild(messages, final, false) == Rebuild(messages[..i], final, inserted) + blocks
        invariant AnyMatch(messages, final) == (inserted || AnyMatch(messages[..i], final))
      {
        var m := messages[i - 1];
        RebuildLast(messages, i, final, inserted, blocks);
        blocks := Piece(m, final, inserted) + blocks;
        inserted := inserted || Matches(m, final);
        i := i - 1;
      }
    }

    method ReconcileTerminalText(final: string, id: string)
      modifies this
      ensures View() == Reconciled(old(View()), final, id)
    {
      if Blank(final) {
        result := "";
        var kept: seq<Message> := [];
        for i := 0 to |messages|
          invariant messages == old(messages) && result == ""
          invariant time == old(time) && cost == old(cost) && usage == old(usage) && toolsUsed == old(toolsUsed)
          invariant kept == NonText(messages[..i])
        {
          assert messages[..i + 1][..i] == messages[..i];
          if messages[i].kind != Text {
            kept := kept + [messages[i]];
          }
        }
        assert messages[..|messages|] == messages;
        messages := kept;
        return;
      }
      result := final;
      var blocks, inserted := RebuildBlocks(final);
      if !inserted {
        blocks := blocks + [FinalBlock(final, id)];
      }
      messages := blocks;
    }
  }
}
