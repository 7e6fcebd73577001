/** Placement: nodes that fail the evaluation are rejected, the others scored and ranked.
    One clock reading `now` serves a whole placement. */
module Scheduler {
  import opened Wrappers
  import opened NodeRecords
  import opened Evaluation
  import opened Collecting

  datatype Candidate = Candidate(nodeId: string, score: int, eligibility: Eligibility)

  datatype Decision = Decision(
    workloadId: string, selected: Option<string>, ranked: seq<Candidate>, rejected: seq<Eligibility>)

  function Score(node: NodeRecord, e: Eligibility, now: int): int {
    (if now - node.lastCollection < 30 then 30 else 0)
    + (if node.activeAlarms == [] then 20 else 0)
    + 10 * |e.matched|
  }

  // ---------- The order of the ranking ----------

  /** The order of strings in the source language: character by character, a prefix first. */
  predicate LexLess(a: string, b: string) {
    b != "" && (a == "" || a[0] < b[0] || (a[0] == b[0] && LexLess(a[1..], b[1..])))
  }

  lemma {:induction false} LexTotal(a: string, b: string)
    ensures a == b || LexLess(a, b) || LexLess(b, a)
    ensures !(LexLess(a, b) && LexLess(b, a)) && !LexLess(a, a)
  {
    if a != "" {
      LexTotal(a[1..], a[1..]);
      if b != "" {
        LexTotal(a[1..], b[1..]);
        assert a == [a[0]] + a[1..] && b == [b[0]] + b[1..];
      }
    }
  }

  lemma {:induction false} LexTransitive(a: string, b: string, c: string)
    requires LexLess(a, b) && LexLess(b, c)
    ensures LexLess(a, c)
  {
    if a != "" && a[0] == b[0] && b[0] == c[0] {
      LexTransitive(a[1..], b[1..], c[1..]);
    }
  }

  predicate Before(a: Candidate, b: Candidate) {
    if a.score == b.score then LexLess(a.nodeId, b.nodeId) else a.score > b.score
  }

  predicate Sorted(s: seq<Candidate>) {
    forall i, j | 0 <= i < j < |s| :: !Before(s[j], s[i])
  }

  lemma NotBeforeTransitive(a: Candidate, b: Candidate, c: Candidate)
    requires !Before(b, a) && !Before(c, b)
    ensures !Before(c, a)
  {
    LexTotal(a.nodeId, b.nodeId);
    LexTotal(b.nodeId, c.nodeId);
    LexTotal(a.nodeId, c.nodeId);
    if LexLess(a.nodeId, b.nodeId) && LexLess(b.nodeId, c.nodeId) {
      LexTransitive(a.nodeId, b.nodeId, c.nodeId);
    }
  }

  /** Puts `c` into a sorted ranking. */
  function Insert(c: Candidate, s: seq<Candidate>): (r: seq<Candidate>)
    ensures multiset(r) == multiset(s) + multiset{c}
  {
    if s == [] then [c]
    else if Before(c, s[0]) then [c] + s
    else
      assert s == [s[0]] + s[1..];
      [s[0]] + Insert(c, s[1..])
  }

  lemma {:induction false} InsertSorted(c: Candidate, s: seq<Candidate>)
    requires Sorted(s)
    ensures Sorted(Insert(c, s))
  {
    if s != [] {
      if Before(c, s[0]) {
        forall x | x in s ensures !Before(x, c) {
          NoneBeforeFirst(s, x);
          LexTotal(c.nodeId, s[0].nodeId);
          NotBeforeTransitive(c, s[0], x);
        }
        SortedCons(c, s);
      } else {
        InsertSorted(c, s[1..]);
        forall x | x in Insert(c, s[1..]) ensures !Before(x, s[0]) {
          InsertedOrThere(c, s[1..], x);
          if x != c {
            NoneBeforeFirst(s, x);
          }
        }
        SortedCons(s[0], Insert(c, s[1..]));
      }
    }
  }

  lemma SortedCons(c: Candidate, s: seq<Candidate>)
    requires Sorted(s) && forall x | x in s :: !Before(x, c)
    ensures Sorted([c] + s)
  {
  }

  lemma NoneBeforeFirst(s: seq<Candidate>, x: Candidate)
    requires Sorted(s) && s != [] && x in s
    ensures !Before(x, s[0])
  {
    LexTotal(x.nodeId, x.nodeId);
  }

  lemma InsertedOrThere(c: Candidate, s: seq<Candidate>, x: Candidate)
    requires x in Insert(c, s)
    ensures x == c || x in s
  {
    assert x in multiset(Insert(c, s));
  }

  /** Any method that returns a sorted permutation will do for the library's sort. */
  method SortRanking(ranked: seq<Candidate>) returns (r: seq<Candidate>)
    ensures Sorted(r) && multiset(r) == multiset(ranked)
  {
    r := [];
    for k := 0 to |ranked|
      invariant Sorted(r) && multiset(r) == multiset(ranked[..k])
    {
      assert ranked[..k + 1] == ranked[..k] + [ranked[k]];
      InsertSorted(ranked[k], r);
      r := Insert(ranked[k], r);
    }
    assert ranked[..|ranked|] == ranked;
  }

  // ---------- The decision ----------

  /** The candidate of a node. */
  function CandidateOf(intent: Intent, node: NodeRecord, now: int): Candidate {
    var e := Evaluated(intent, node, now);
    Candidate(node.id, Score(node, e, now), e)
  }

  function Scoring(intent: Intent, now: int): NodeRecord -> Option<Candidate> {
    (node: NodeRecord) => if Evaluated(intent, node, now).isEligible then Some(CandidateOf(intent, node, now)) else None
  }

  function Rejecting(intent: Intent, now: int): NodeRecord -> Option<Eligibility> {
    (node: NodeRecord) => if Evaluated(intent, node, now).isEligible then None else Some(Evaluated(intent, node, now))
  }

  /** `d` ranks the eligible nodes, lists the others in the order given, and selects the head. */
  ghost predicate Decides(intent: Intent, nodes: seq<NodeRecord>, now: int, d: Decision) {
    && d.workloadId == intent.workloadId
    && Sorted(d.ranked) && multiset(d.ranked) == multiset(Collect(nodes, Scoring(intent, now)))
    && d.rejected == Collect(nodes, Rejecting(intent, now))
    && d.selected == if d.ranked == [] then None else Some(d.ranked[0].nodeId)
  }

  method ScoreNode(node: NodeRecord, result: Eligibility, now: int) returns (score: int)
    ensures score == Score(node, result, now)
  {
    score := 0;
    if now - node.lastCollection < 30 {
      score := score + 30;
    }
    if |node.activeAlarms| == 0 {
      score := score + 20;
    }
    score := score + |result.matched| * 10;
  }

  method ScheduleV0(intent: Intent, nodes: seq<NodeRecord>, now: int) returns (d: Decision)
    ensures Decides(intent, nodes, now, d)
  {
    var ranked: seq<Candidate>, rejected: seq<Eligibility> := [], [];
    for k := 0 to |nodes|
      invariant ranked == Collect(nodes[..k], Scoring(intent, now))
      invariant rejected == Collect(nodes[..k], Rejecting(intent, now))
    {
      assert nodes[..k + 1] == nodes[..k] + [nodes[k]];
      CollectOneMore(nodes[..k], nodes[k], Scoring(intent, now));
      CollectOneMore(nodes[..k], nodes[k], Rejecting(intent, now));
      var node := nodes[k];
      var result := Evaluate(intent, node, now);
      if !result.isEligible {
        rejected := rejected + [result];
        continue;
      }
      var score := ScoreNode(node, result, now);
      ranked := ranked + [Candidate(node.id, score, result)];
    }
    assert nodes[..|nodes|] == nodes;
    ranked := SortRanking(ranked);
    var selected := if |ranked| > 0 then Some(ranked[0].nodeId) else None;
    d := Decision(intent.workloadId, selected, ranked, rejected);
  }

  // ---------- No node is lost, and the order of the input does not matter ----------

  function NodeId(): NodeRecord -> Option<string> {
    (node: NodeRecord) => Some(node.id)
  }

  function CandidateId(): Candidate -> Option<string> {
    (c: Candidate) => Some(c.nodeId)
  }

  function EligibilityId(): Eligibility -> Option<string> {
    (e: Eligibility) => Some(e.nodeId)
  }

  lemma EachIdOnce(intent: Intent, nodes: seq<NodeRecord>, now: int)
    ensures multiset(Collect(Collect(nodes, Scoring(intent, now)), CandidateId()))
            + multiset(Collect(Collect(nodes, Rejecting(intent, now)), EligibilityId()))
         == multiset(Collect(nodes, NodeId()))
  {
    CollectTwice(nodes, Scoring(intent, now), CandidateId());
    CollectTwice(nodes, Rejecting(intent, now), EligibilityId());
    SplitKeepsAll(nodes, Then(Scoring(intent, now), CandidateId()), Then(Rejecting(intent, now), EligibilityId()),
                  NodeId());
  }

  /** Ranked and rejected together are the nodes, none lost and none duplicated; exactly the
      eligible ones are ranked, and nobody beats the selected one. */
  lemma EveryNodeIsRankedOrRejected(intent: Intent, nodes: seq<NodeRecord>, now: int, d: Decision)
    requires Decides(intent, nodes, now, d)
    ensures multiset(Collect(d.ranked, CandidateId())) + multiset(Collect(d.rejected, EligibilityId()))
         == multiset(Collect(nodes, NodeId()))
    ensures forall c :: c in d.ranked <==>
              exists n | n in nodes :: Evaluated(intent, n, now).isEligible && c == CandidateOf(intent, n, now)
    ensures d.selected.None? <==> forall n | n in nodes :: !Evaluated(intent, n, now).isEligible
    ensures d.selected.Some? ==>
              d.selected.value == d.ranked[0].nodeId && forall c | c in d.ranked :: !Before(c, d.ranked[0])
  {
    CollectPermuted(d.ranked, Collect(nodes, Scoring(intent, now)), CandidateId());
    EachIdOnce(intent, nodes, now);
    RankedAre(intent, nodes, now, d);
    if d.selected.None? {
      forall n | n in nodes
        ensures !Evaluated(intent, n, now).isEligible
      {
        assert CandidateOf(intent, n, now) !in d.ranked;
      }
    } else {
      assert d.ranked[0] in d.ranked;
      LexTotal(d.ranked[0].nodeId, d.ranked[0].nodeId);
    }
  }

  lemma RankedAre(intent: Intent, nodes: seq<NodeRecord>, now: int, d: Decision)
    requires Decides(intent, nodes, now, d)
    ensures forall c :: c in d.ranked <==>
              exists n | n in nodes :: Evaluated(intent, n, now).isEligible && c == CandidateOf(intent, n, now)
  {
    var scored := Collect(nodes, Scoring(intent, now));
    forall c
      ensures c in d.ranked <==>
              exists n | n in nodes :: Evaluated(intent, n, now).isEligible && c == CandidateOf(intent, n, now)
    {
      assert c in d.ranked <==> c in multiset(d.ranked);
      assert c in scored <==> c in multiset(scored);
      CollectAre(nodes, Scoring(intent, now), c);
      forall n | n in nodes
        ensures Scoring(intent, now)(n) == Some(c) <==>
                Evaluated(intent, n, now).isEligible && c == CandidateOf(intent, n, now)
      {
      }
    }
  }

  /** There is only one way to sort a ranking in which candidates that share an id are equal. */
  lemma {:induction false} SortedRankingIsUnique(a: seq<Candidate>, b: seq<Candidate>)
    requires Sorted(a) && Sorted(b) && multiset(a) == multiset(b)
    requires forall x, y | x in a && y in a && x.nodeId == y.nodeId :: x == y
    ensures a == b
  {
    if a == [] {
      EmptyBag(b);
    } else if b == [] {
      EmptyBag(a);
    } else {
      HeadsAreEqual(a, b);
      TailsAgree(a, b);
      SortedRankingIsUnique(a[1..], b[1..]);
    }
  }

  lemma TailsAgree(a: seq<Candidate>, b: seq<Candidate>)
    requires a != [] && b != [] && a[0] == b[0]
    requires multiset(a) == multiset(b)
    ensures multiset(a[1..]) == multiset(b[1..])
  {
    assert a == [a[0]] + a[1..] && b == [b[0]] + b[1..];
    assert multiset(a[1..]) == multiset(a) - multiset{a[0]};
  }

  lemma HeadsAreEqual(a: seq<Candidate>, b: seq<Candidate>)
    requires a != [] && b != []
    requires Sorted(a) && Sorted(b) && multiset(a) == multiset(b)
    requires forall x, y | x in a && y in a && x.nodeId == y.nodeId :: x == y
    ensures a[0] == b[0]
  {
    var x, y := a[0], b[0];
    assert x in multiset(a) && y in multiset(b);
    assert x in multiset(b) && y in multiset(a);
    LexTotal(x.nodeId, y.nodeId);
  }

  /** Whatever order the nodes come in, the ranking and the selected node are the same, and
      so is the bag of rejections. */
  lemma RankingIsOrderFree(intent: Intent, nodes: seq<NodeRecord>, others: seq<NodeRecord>, now: int,
                           d: Decision, e: Decision)
    requires multiset(nodes) == multiset(others)
    requires forall m, n | m in nodes && n in nodes && m.id == n.id :: m == n
    requires Decides(intent, nodes, now, d) && Decides(intent, others, now, e)
    ensures d.ranked == e.ranked && d.selected == e.selected
    ensures multiset(d.rejected) == multiset(e.rejected)
  {
    CollectPermuted(nodes, others, Scoring(intent, now));
    CollectPermuted(nodes, others, Rejecting(intent, now));
    RankedAre(intent, nodes, now, d);
    SortedRankingIsUnique(d.ranked, e.ranked);
  }

  // ---------- The score ----------

  /** The best possible score is reached exactly by fresh telemetry, no alarm and every
      preferred feature. */
  lemma ScoreIsBounded(intent: Intent, node: NodeRecord, now: int)
    ensures var score := CandidateOf(intent, node, now).score;
            && 0 <= score <= 50 + 10 * |intent.preferredFeatures|
            && (score == 50 + 10 * |intent.preferredFeatures| <==>
                  && now - node.lastCollection < 30
                  && node.activeAlarms == []
                  && forall f | f in intent.preferredFeatures :: Supports(node, f))
  {
    MatchedCount(intent.preferredFeatures, node);
  }

  // ---------- What the ranking means ----------

  /** The order of ids at the first place where they differ. */
  lemma {:induction false} LexLessIff(a: string, b: string)
    ensures LexLess(a, b) <==> exists k: nat :: FirstDifference(a, b, k)
  {
    if a != "" && b != "" && a[0] == b[0] {
      LexLessIff(a[1..], b[1..]);
      if k: nat :| FirstDifference(a, b, k) {
        assert k > 0;
        assert a[1..][..k - 1] == a[..k][1..] && b[1..][..k - 1] == b[..k][1..];
        assert FirstDifference(a[1..], b[1..], k - 1);
      }
      if k: nat :| FirstDifference(a[1..], b[1..], k) {
        assert a[..k + 1] == [a[0]] + a[1..][..k] && b[..k + 1] == [b[0]] + b[1..][..k];
        assert FirstDifference(a, b, k + 1);
      }
    } else if LexLess(a, b) {
      assert FirstDifference(a, b, 0);
    } else {
      forall k: nat
        ensures !FirstDifference(a, b, k)
      {
        if FirstDifference(a, b, k) && k > 0 {
          SameHead(a, b, k);
        }
      }
    }
  }

  lemma SameHead(a: string, b: string, k: nat)
    requires 0 < k && FirstDifference(a, b, k)
    ensures a != "" && a[0] == b[0]
  {
    assert a[..k][0] == b[..k][0];
  }

  /** `a` and `b` agree up to place `k`, where `a` ends or has the smaller character. */
  ghost predicate FirstDifference(a: string, b: string, k: nat) {
    k <= |a| && k < |b| && a[..k] == b[..k] && (k == |a| || a[k] < b[k])
  }

  predicate Fresh(n: NodeRecord, now: int) {
    now - n.lastCollection < 30
  }

  predicate Quiet(n: NodeRecord) {
    n.activeAlarms == []
  }

  /** How many of the preferred features the node supports. */
  function Wishes(intent: Intent, n: NodeRecord): nat {
    |Matched(intent.preferredFeatures, n)|
  }

  /** Wishes decide, but fresh telemetry is worth three of them and a quiet node two. */
  predicate Better(intent: Intent, a: NodeRecord, b: NodeRecord, now: int) {
    var lead := Wishes(intent, a) - Wishes(intent, b)
                + (if Fresh(a, now) == Fresh(b, now) then 0 else if Fresh(a, now) then 3 else -3)
                + (if Quiet(a) == Quiet(b) then 0 else if Quiet(a) then 2 else -2);
    lead > 0 || (lead == 0 && LexLess(a.id, b.id))
  }

  lemma BeforeIffBetter(intent: Intent, a: NodeRecord, b: NodeRecord, now: int)
    ensures Before(CandidateOf(intent, a, now), CandidateOf(intent, b, now)) <==> Better(intent, a, b, now)
  {
  }

  /** With equally many wishes met, fresh telemetry goes first whatever the alarms, and at equal
      freshness the quiet node goes first. */
  lemma FreshThenQuiet(intent: Intent, a: NodeRecord, b: NodeRecord, now: int)
    requires Wishes(intent, a) == Wishes(intent, b)
    ensures now - a.lastCollection < 30 <= now - b.lastCollection ==>
              Before(CandidateOf(intent, a, now), CandidateOf(intent, b, now))
    ensures (now - a.lastCollection < 30 <==> now - b.lastCollection < 30)
            && a.activeAlarms == [] && b.activeAlarms != [] ==>
              Before(CandidateOf(intent, a, now), CandidateOf(intent, b, now))
  {
    BeforeIffBetter(intent, a, b, now);
  }

  /** More than three wishes outweigh fresh telemetry, more than two outweigh quiet, and at exactly
      three or two the ids decide. */
  lemma WishesThatOutweigh(intent: Intent, a: NodeRecord, b: NodeRecord, now: int)
    ensures var lead := Wishes(intent, a) - Wishes(intent, b);
            var first := Before(CandidateOf(intent, a, now), CandidateOf(intent, b, now));
            && (now - b.lastCollection < 30 <= now - a.lastCollection
                && (a.activeAlarms == [] <==> b.activeAlarms == []) ==>
                  (first <==> lead > 3 || (lead == 3 && LexLess(a.id, b.id))))
            && ((now - a.lastCollection < 30 <==> now - b.lastCollection < 30)
                && a.activeAlarms != [] && b.activeAlarms == [] ==>
                  (first <==> lead > 2 || (lead == 2 && LexLess(a.id, b.id))))
  {
    BeforeIffBetter(intent, a, b, now);
  }

  /** The selected node is an eligible one that no eligible node is better than, and the ranking
      puts no node behind one that it is better than. */
  lemma SelectedIsBest(intent: Intent, nodes: seq<NodeRecord>, now: int, d: Decision)
    requires Decides(intent, nodes, now, d) && d.selected.Some?
    ensures exists n | n in nodes ::
              && n.id == d.selected.value && Evaluated(intent, n, now).isEligible
              && forall m | m in nodes && Evaluated(intent, m, now).isEligible :: !Better(intent, m, n, now)
    ensures forall i, j | 0 <= i < j < |d.ranked| ::
              d.ranked[i].score >= d.ranked[j].score
              && (d.ranked[i].score == d.ranked[j].score ==> !LexLess(d.ranked[j].nodeId, d.ranked[i].nodeId))
  {
    RankedAre(intent, nodes, now, d);
    EveryNodeIsRankedOrRejected(intent, nodes, now, d);
    assert d.ranked[0] in d.ranked;
    var n :| n in nodes && Evaluated(intent, n, now).isEligible && d.ranked[0] == CandidateOf(intent, n, now);
    forall m | m in nodes && Evaluated(intent, m, now).isEligible
      ensures !Better(intent, m, n, now)
    {
      BeforeIffBetter(intent, m, n, now);
      assert CandidateOf(intent, m, now) in d.ranked;
    }
  }
}
