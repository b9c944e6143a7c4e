/** The interlocutor capsule: candidates are deduplicated by identity, merged, ranked and
    selected under a character budget and per-kind limits. The score of a candidate for the
    objective and its rendering are parameters. */
module ContextCapsule {
  import opened Wrappers
  import opened PythonText

  datatype Kind = Conversation | Task | Resource | Memory

  datatype Candidate = Candidate(
    key: string,
    kind: Kind,
    reference: string,
    title: string,
    excerpt: string,
    revision: Option<int>,
    occurredAt: Option<real>,
    baseScore: real,
    provenance: seq<string>,
    metadata: map<string, string>)

  const MAX_CHARS: nat := 16000

  function KindLimit(kind: Kind): nat
    requires kind != Conversation
  {
    match kind
    case Task => 5
    case Resource => 10
    case Memory => 50
  }

  function IdentityOf(c: Candidate): string {
    if c.kind == Resource then "resource:" + Strip(c.reference) else c.key
  }

  // ----- merging duplicates -----

  function LaterOf(preferred: Option<real>, other: Option<real>): Option<real> {
    if other.Some? && (preferred.None? || other.value > preferred.value) then other else preferred
  }

  function NewerOf(preferred: Option<int>, other: Option<int>): Option<int> {
    if other.Some? && (preferred.None? || other.value > preferred.value) then other else preferred
  }

  /** The list without repetitions, each entry where it first occurs. */
  function Distinct(s: seq<string>): seq<string> {
    if s == [] then [] else
      var rest := Distinct(s[..|s| - 1]);
      if s[|s| - 1] in rest then rest else rest + [s[|s| - 1]]
  }

  /** The better scored projection, with the merged attributes of both. */
  function Merge(score: Candidate -> real, current: Candidate, candidate: Candidate): Candidate {
    var preferred := if score(candidate) > score(current) then candidate else current;
    var other := if score(candidate) > score(current) then current else candidate;
    preferred.(revision := NewerOf(preferred.revision, other.revision),
               occurredAt := LaterOf(preferred.occurredAt, other.occurredAt),
               baseScore := if current.baseScore >= candidate.baseScore then current.baseScore else candidate.baseScore,
               provenance := Distinct(current.provenance + candidate.provenance),
               metadata := other.metadata + preferred.metadata)
  }

  /** A group of duplicates, merged one after the other. */
  function MergeAll(score: Candidate -> real, group: seq<Candidate>): Candidate
    requires group != []
  {
    if |group| == 1 then group[0] else Merge(score, MergeAll(score, group[..|group| - 1]), group[|group| - 1])
  }

  /** A resource is identified by its reference without surrounding white space, whatever its
      key; any other candidate by its key. */
  lemma IdentityMeaning(a: Candidate, b: Candidate)
    ensures a.kind == b.kind == Resource
            ==> (IdentityOf(a) == IdentityOf(b) <==> Strip(a.reference) == Strip(b.reference))
    ensures a.kind != Resource ==> IdentityOf(a) == a.key
  {
    var p := "resource:";
    assert (p + Strip(a.reference))[|p|..] == Strip(a.reference);
    assert (p + Strip(b.reference))[|p|..] == Strip(b.reference);
  }

  /** `d` lists what `s` lists, each once, in order of first occurrence: the members of a prefix
      come before everything that is new after it. */
  ghost predicate FirstOccurrences(s: seq<string>, d: seq<string>) {
    && (forall x :: x in d <==> x in s)
    && (forall i, j :: 0 <= i < j < |d| ==> d[i] != d[j])
    && (forall k :: 0 <= k <= |s| ==> exists m :: 0 <= m <= |d| && forall x :: x in d[..m] <==> x in s[..k])
  }

  lemma {:induction false} DistinctMeaning(s: seq<string>)
    ensures FirstOccurrences(s, Distinct(s))
    decreases |s|
  {
    var d := Distinct(s);
    if s == [] {
      assert d[..0] == [];
    } else {
      var n := |s| - 1;
      DistinctMeaning(s[..n]);
      forall x
        ensures x in d <==> x in s
      {
        DistinctMembers(s, x);
      }
      forall k | 0 <= k <= |s|
        ensures exists m :: 0 <= m <= |d| && forall x :: x in d[..m] <==> x in s[..k]
      {
        if k == |s| {
          assert s[..k] == s && d[..|d|] == d;
        } else {
          var c := Distinct(s[..n]);
          assert s[..n][..k] == s[..k];
          var m :| 0 <= m <= |c| && forall x :: x in c[..m] <==> x in s[..n][..k];
          assert c[..m] == d[..m];
        }
      }
    }
  }

  /** The merge shows the new candidate if that scores better, otherwise the current one, and
      prefers its metadata; provenance is the current one and then what is new. */
  lemma MergeMeaning(score: Candidate -> real, current: Candidate, candidate: Candidate)
    ensures var m := Merge(score, current, candidate);
            && (score(candidate) > score(current) ==> SameFace(m, candidate))
            && (score(candidate) <= score(current) ==> SameFace(m, current))
            && (forall k :: k in m.metadata <==> k in current.metadata || k in candidate.metadata)
            && (forall k :: k in m.metadata ==>
                  m.metadata[k] ==
                    if score(candidate) > score(current) then
                      if k in candidate.metadata then candidate.metadata[k] else current.metadata[k]
                    else
                      if k in current.metadata then current.metadata[k] else candidate.metadata[k])
            && FirstOccurrences(current.provenance + candidate.provenance, m.provenance)
  {
    DistinctMeaning(current.provenance + candidate.provenance);
  }

  /** What the projection shows; merging never mixes it. */
  ghost predicate SameFace(a: Candidate, b: Candidate) {
    a.key == b.key && a.kind == b.kind && a.reference == b.reference && a.title == b.title && a.excerpt == b.excerpt
  }

  ghost predicate FaceOf(m: Candidate, group: seq<Candidate>) {
    exists i :: 0 <= i < |group| && SameFace(m, group[i])
  }

  /** `m` carries the largest revision of the group. */
  ghost predicate NewestRevision(m: Option<int>, group: seq<Candidate>) {
    && (forall i :: 0 <= i < |group| && group[i].revision.Some? ==> m.Some? && group[i].revision.value <= m.value)
    && (m.Some? ==> exists i :: 0 <= i < |group| && group[i].revision == m)
  }

  ghost predicate LatestTime(m: Option<real>, group: seq<Candidate>) {
    && (forall i :: 0 <= i < |group| && group[i].occurredAt.Some? ==> m.Some? && group[i].occurredAt.value <= m.value)
    && (m.Some? ==> exists i :: 0 <= i < |group| && group[i].occurredAt == m)
  }

  ghost predicate LargestScore(m: real, group: seq<Candidate>) {
    && (forall i :: 0 <= i < |group| ==> group[i].baseScore <= m)
    && (exists i :: 0 <= i < |group| && group[i].baseScore == m)
  }

  ghost predicate AllProvenance(m: seq<string>, group: seq<Candidate>) {
    forall s :: s in m <==> exists i :: 0 <= i < |group| && s in group[i].provenance
  }

  lemma {:induction false} DistinctMembers(s: seq<string>, x: string)
    ensures x in Distinct(s) <==> x in s
    decreases |s|
  {
    if s != [] {
      DistinctMembers(s[..|s| - 1], x);
      DistinctMembers(s[..|s| - 1], s[|s| - 1]);
      assert s == s[..|s| - 1] + [s[|s| - 1]];
    }
  }

  lemma {:induction false} MergeAllFace(score: Candidate -> real, group: seq<Candidate>)
    requires group != []
    ensures FaceOf(MergeAll(score, group), group)
    decreases |group|
  {
    var n := |group| - 1;
    if n == 0 {
      assert SameFace(group[0], group[0]);
    } else {
      var front := group[..n];
      MergeAllFace(score, front);
      var i :| 0 <= i < |front| && SameFace(MergeAll(score, front), front[i]);
      assert front[i] == group[i];
      assert SameFace(MergeAll(score, group), group[i]) || SameFace(MergeAll(score, group), group[n]);
    }
  }

  lemma RevisionStep(group: seq<Candidate>, m: Option<int>, r: Option<int>)
    requires group != [] && NewestRevision(m, group[..|group| - 1])
    requires r == NewerOf(m, group[|group| - 1].revision) || r == NewerOf(group[|group| - 1].revision, m)
    ensures NewestRevision(r, group)
  {
    var n := |group| - 1;
    var front := group[..n];
    if m.Some? && r == m {
      var i :| 0 <= i < |front| && front[i].revision == m;
      assert group[i].revision == m;
    }
    assert r == m || r == group[n].revision;
    assert forall i :: 0 <= i < n ==> front[i] == group[i];
  }

  lemma {:induction false} MergeAllRevision(score: Candidate -> real, group: seq<Candidate>)
    requires group != []
    ensures NewestRevision(MergeAll(score, group).revision, group)
    decreases |group|
  {
    if |group| == 1 {
      assert group[0].revision == MergeAll(score, group).revision;
    } else {
      var front := group[..|group| - 1];
      MergeAllRevision(score, front);
      RevisionStep(group, MergeAll(score, front).revision, MergeAll(score, group).revision);
    }
  }

  lemma TimeStep(group: seq<Candidate>, m: Option<real>, r: Option<real>)
    requires group != [] && LatestTime(m, group[..|group| - 1])
    requires r == LaterOf(m, group[|group| - 1].occurredAt) || r == LaterOf(group[|group| - 1].occurredAt, m)
    ensures LatestTime(r, group)
  {
    var n := |group| - 1;
    var front := group[..n];
    if m.Some? && r == m {
      var i :| 0 <= i < |front| && front[i].occurredAt == m;
      assert group[i].occurredAt == m;
    }
    assert r == m || r == group[n].occurredAt;
    assert forall i :: 0 <= i < n ==> front[i] == group[i];
  }

  lemma {:induction false} MergeAllTime(score: Candidate -> real, group: seq<Candidate>)
    requires group != []
    ensures LatestTime(MergeAll(score, group).occurredAt, group)
    decreases |group|
  {
    if |group| == 1 {
      assert group[0].occurredAt == MergeAll(score, group).occurredAt;
    } else {
      var front := group[..|group| - 1];
      MergeAllTime(score, front);
      TimeStep(group, MergeAll(score, front).occurredAt, MergeAll(score, group).occurredAt);
    }
  }

  lemma ScoreStep(group: seq<Candidate>, m: real, r: real)
    requires group != [] && LargestScore(m, group[..|group| - 1])
    requires r == if m >= group[|group| - 1].baseScore then m else group[|group| - 1].baseScore
    ensures LargestScore(r, group)
  {
    var front := group[..|group| - 1];
    var i :| 0 <= i < |front| && front[i].baseScore == m;
    assert forall j :: 0 <= j < |front| ==> front[j] == group[j];
    assert group[i].baseScore == m;
  }

  lemma {:induction false} MergeAllScore(score: Candidate -> real, group: seq<Candidate>)
    requires group != []
    ensures LargestScore(MergeAll(score, group).baseScore, group)
    decreases |group|
  {
    if |group| == 1 {
      assert group[0].baseScore == MergeAll(score, group).baseScore;
    } else {
      var front := group[..|group| - 1];
      MergeAllScore(score, front);
      ScoreStep(group, MergeAll(score, front).baseScore, MergeAll(score, group).baseScore);
    }
  }

  lemma {:induction false} MergeAllProvenance(score: Candidate -> real, group: seq<Candidate>)
    requires group != []
    ensures AllProvenance(MergeAll(score, group).provenance, group)
    decreases |group|
  {
    var n := |group| - 1;
    if n > 0 {
      var front := group[..n];
      MergeAllProvenance(score, front);
      var m := MergeAll(score, front);
      forall s
        ensures s in MergeAll(score, group).provenance <==> exists i :: 0 <= i < |group| && s in group[i].provenance
      {
        DistinctMembers(m.provenance + group[n].provenance, s);
        assert s in m.provenance <==> exists i :: 0 <= i < |front| && s in front[i].provenance;
        if i :| 0 <= i < |front| && s in front[i].provenance {
          assert s in group[i].provenance;
        }
        if i :| 0 <= i < |group| && s in group[i].provenance {
          assert i < n ==> s in front[i].provenance;
        }
      }
    }
  }

  /** Whatever the order of the duplicates, the merged candidate has the largest revision, the
      latest time, the largest base score and all provenance of its group, and shows one of
      its members. */
  lemma MergedGroup(score: Candidate -> real, group: seq<Candidate>)
    requires group != []
    ensures var m := MergeAll(score, group);
            && NewestRevision(m.revision, group) && LatestTime(m.occurredAt, group) && LargestScore(m.baseScore, group)
            && AllProvenance(m.provenance, group) && FaceOf(m, group)
  {
    MergeAllRevision(score, group);
    MergeAllTime(score, group);
    MergeAllScore(score, group);
    MergeAllProvenance(score, group);
    MergeAllFace(score, group);
  }

  /** The order in which duplicates arrive does not matter to the merged attributes. */
  lemma MergeOrderIrrelevant(score: Candidate -> real, group: seq<Candidate>, other: seq<Candidate>)
    requires group != [] && other != [] && forall c :: c in group <==> c in other
    ensures var m, n := MergeAll(score, group), MergeAll(score, other);
            m.revision == n.revision && m.occurredAt == n.occurredAt && m.baseScore == n.baseScore
            && forall s :: s in m.provenance <==> s in n.provenance
  {
    MergedGroup(score, group);
    MergedGroup(score, other);
    RevisionsAgree(MergeAll(score, group).revision, MergeAll(score, other).revision, group, other);
    RevisionsAgree(MergeAll(score, other).revision, MergeAll(score, group).revision, other, group);
    TimesAgree(MergeAll(score, group).occurredAt, MergeAll(score, other).occurredAt, group, other);
    TimesAgree(MergeAll(score, other).occurredAt, MergeAll(score, group).occurredAt, other, group);
    ScoresAgree(MergeAll(score, group).baseScore, MergeAll(score, other).baseScore, group, other);
    ScoresAgree(MergeAll(score, other).baseScore, MergeAll(score, group).baseScore, other, group);
    ProvenanceAgrees(MergeAll(score, group).provenance, MergeAll(score, other).provenance, group, other);
    ProvenanceAgrees(MergeAll(score, other).provenance, MergeAll(score, group).provenance, other, group);
  }

  lemma RevisionsAgree(m: Option<int>, n: Option<int>, group: seq<Candidate>, other: seq<Candidate>)
    requires NewestRevision(m, group) && NewestRevision(n, other) && forall c :: c in group ==> c in other
    ensures m.Some? ==> n.Some? && m.value <= n.value
  {
    if m.Some? {
      var i :| 0 <= i < |group| && group[i].revision == m;
      assert group[i] in other;
      var j :| 0 <= j < |other| && other[j] == group[i];
    }
  }

  lemma TimesAgree(m: Option<real>, n: Option<real>, group: seq<Candidate>, other: seq<Candidate>)
    requires LatestTime(m, group) && LatestTime(n, other) && forall c :: c in group ==> c in other
    ensures m.Some? ==> n.Some? && m.value <= n.value
  {
    if m.Some? {
      var i :| 0 <= i < |group| && group[i].occurredAt == m;
      assert group[i] in other;
      var j :| 0 <= j < |other| && other[j] == group[i];
    }
  }

  lemma ScoresAgree(m: real, n: real, group: seq<Candidate>, other: seq<Candidate>)
    requires LargestScore(m, group) && LargestScore(n, other) && forall c :: c in group ==> c in other
    ensures m <= n
  {
    var i :| 0 <= i < |group| && group[i].baseScore == m;
    assert group[i] in other;
    var j :| 0 <= j < |other| && other[j] == group[i];
  }

  lemma ProvenanceAgrees(m: seq<string>, n: seq<string>, group: seq<Candidate>, other: seq<Candidate>)
    requires AllProvenance(m, group) && AllProvenance(n, other) && forall c :: c in group ==> c in other
    ensures forall s :: s in m ==> s in n
  {
    forall s | s in m
      ensures s in n
    {
      var i :| 0 <= i < |group| && s in group[i].provenance;
      assert group[i] in other;
      var j :| 0 <= j < |other| && other[j] == group[i];
      assert s in other[j].provenance;
    }
  }

  // ----- grouping by identity -----

  /** The candidates of one identity, in order; conversations do not take part. */
  function Group(cs: seq<Candidate>, id: string): seq<Candidate> {
    if cs == [] then []
    else
      var rest := Group(cs[..|cs| - 1], id);
      var last := cs[|cs| - 1];
      if last.kind != Conversation && IdentityOf(last) == id then rest + [last] else rest
  }

  /** A dictionary that remembers the order of its keys. */
  datatype Best = Best(order: seq<string>, merged: map<string, Candidate>)

  /** One candidate enters the dictionary. */
  function Admit(score: Candidate -> real, b: Best, c: Candidate): Best {
    var id := IdentityOf(c);
    if c.kind == Conversation then b
    else if id in b.merged then b.(merged := b.merged[id := Merge(score, b.merged[id], c)])
    else Best(b.order + [id], b.merged[id := c])
  }

  function Collect(score: Candidate -> real, cs: seq<Candidate>): Best {
    if cs == [] then Best([], map[]) else Admit(score, Collect(score, cs[..|cs| - 1]), cs[|cs| - 1])
  }

  ghost predicate KeysOk(b: Best) {
    && (forall i, j :: 0 <= i < j < |b.order| ==> b.order[i] != b.order[j])
    && (forall id :: id in b.order <==> id in b.merged)
  }

  /** The entry of an identity is its group, merged. */
  ghost predicate EntryOk(score: Candidate -> real, cs: seq<Candidate>, b: Best, id: string) {
    var g := Group(cs, id);
    (id in b.merged <==> g != []) && (id in b.merged ==> b.merged[id] == MergeAll(score, g))
  }

  ghost predicate BestOk(score: Candidate -> real, cs: seq<Candidate>, b: Best) {
    KeysOk(b) && forall id :: EntryOk(score, cs, b, id)
  }

  lemma AdmitKeys(score: Candidate -> real, b: Best, c: Candidate)
    requires KeysOk(b)
    ensures KeysOk(Admit(score, b, c))
  {
  }

  lemma MergeAllSnoc(score: Candidate -> real, g: seq<Candidate>, c: Candidate)
    ensures MergeAll(score, g + [c]) == if g == [] then c else Merge(score, MergeAll(score, g), c)
  {
    assert (g + [c])[..|g|] == g;
  }

  lemma AdmitEntry(score: Candidate -> real, cs: seq<Candidate>, b: Best, id: string)
    requires cs != [] && EntryOk(score, cs[..|cs| - 1], b, id)
    ensures EntryOk(score, cs, Admit(score, b, cs[|cs| - 1]), id)
  {
    MergeAllSnoc(score, Group(cs[..|cs| - 1], id), cs[|cs| - 1]);
  }

  lemma {:induction false} CollectOk(score: Candidate -> real, cs: seq<Candidate>)
    ensures BestOk(score, cs, Collect(score, cs))
    decreases |cs|
  {
    if cs != [] {
      var b := Collect(score, cs[..|cs| - 1]);
      CollectOk(score, cs[..|cs| - 1]);
      AdmitKeys(score, b, cs[|cs| - 1]);
      forall id
        ensures EntryOk(score, cs, Collect(score, cs), id)
      {
        AdmitEntry(score, cs, b, id);
      }
    }
  }

  lemma {:induction false} GroupMembers(cs: seq<Candidate>, id: string, c: Candidate)
    ensures c in Group(cs, id) <==> c in cs && c.kind != Conversation && IdentityOf(c) == id
    decreases |cs|
  {
    if cs != [] {
      GroupMembers(cs[..|cs| - 1], id, c);
      assert cs == cs[..|cs| - 1] + [cs[|cs| - 1]];
    }
  }

  /** A merged candidate keeps the identity of its group. */
  lemma MergedIdentity(score: Candidate -> real, cs: seq<Candidate>, id: string)
    requires Group(cs, id) != []
    ensures var m := MergeAll(score, Group(cs, id)); IdentityOf(m) == id && m.kind != Conversation
  {
    var g := Group(cs, id);
    MergeAllFace(score, g);
    var i :| 0 <= i < |g| && SameFace(MergeAll(score, g), g[i]);
    GroupMembers(cs, id, g[i]);
  }
}
