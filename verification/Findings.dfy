/**
 The find stage (`app/pipeline/stages/find.py`): verified statements grouped by source domain into tiered
 findings.
 */
module Findings {
  import opened Prelude
  import opened Knowledge
  import opened Gate

  type DomainOf = string -> string

  /** A verified statement of the run whose passage belongs to a source of the run. */
  predicate Eligible(db: Db, run: nat, s: nat)
    requires s < |db.statements|
  {
    var row := db.statements[s];
    && row.run == run && row.status == Verified
    && row.passage < |db.passages| && db.passages[row.passage].source < |db.sources|
    && db.sources[db.passages[row.passage].source].run == run
  }

  function EligibleBelow(db: Db, run: nat, n: nat): seq<nat>
    requires n <= |db.statements|
  {
    if n == 0 then [] else EligibleBelow(db, run, n - 1) + (if Eligible(db, run, n - 1) then [n - 1] else [])
  }

  /** The source domain of a statement. */
  function DomainFor(db: Db, s: nat, domain: DomainOf): string {
    if s < |db.statements| && db.statements[s].passage < |db.passages|
      && db.passages[db.statements[s].passage].source < |db.sources|
    then domain(db.sources[db.passages[db.statements[s].passage].source].uri)
    else ""
  }

  function DomainsFor(db: Db, ids: seq<nat>, domain: DomainOf): seq<string> {
    if ids == [] then []
    else DomainsFor(db, ids[..|ids| - 1], domain) + [DomainFor(db, ids[|ids| - 1], domain)]
  }

  function Members(db: Db, ids: seq<nat>, d: string, domain: DomainOf): seq<nat> {
    if ids == [] then []
    else
      var n := |ids| - 1;
      Members(db, ids[..n], d, domain) + (if DomainFor(db, ids[n], domain) == d then [ids[n]] else [])
  }

  /** `_best_score`: the running maximum over the verify links of a statement. */
  function Best(links: seq<Link>, s: nat): Score {
    if links == [] then Unsupported
    else
      var n := |links| - 1;
      var before := Best(links[..n], s);
      if links[n].statement == s && links[n].how == Verify && Rank(links[n].score) > Rank(before)
      then links[n].score
      else before
  }

  method BestScore(links: seq<Link>, s: nat) returns (best: Score)
    ensures best == Best(links, s)
  {
    best := Unsupported;
    for i := 0 to |links|
      invariant best == Best(links[..i], s)
    {
      assert links[..i + 1][..i] == links[..i];
      if links[i].statement != s || links[i].how != Verify {
        continue;
      }
      if Rank(links[i].score) > Rank(best) {
        best := links[i].score;
      }
    }
    assert links[..|links|] == links;
  }

  function TierFor(scores: set<Score>): Tier {
    if Full in scores then T1 else if Partial in scores then T2 else T3
  }

  /** The links query of the stage: only links made for this run. */
  function RunLinks(links: seq<Link>, run: nat): seq<Link> {
    if links == [] then []
    else
      var n := |links| - 1;
      RunLinks(links[..n], run) + (if links[n].run == run then [links[n]] else [])
  }

  function ScoresOf(links: seq<Link>, ids: seq<nat>): set<Score> {
    set i | 0 <= i < |ids| :: Best(links, ids[i])
  }

  function Pairs(f: nat, ids: seq<nat>): seq<(nat, nat)> {
    seq(|ids|, i requires 0 <= i < |ids| => (f, ids[i]))
  }

  /** The second loop between two domains; the stage dies when `commits` are used up. */
  datatype Groups = Grouping(db: Db, commits: nat, live: bool)

  function FindOne(st: Groups, run: nat, ids: seq<nat>, d: string, domain: DomainOf): Groups {
    if st.commits == 0 then st.(live := false)
    else
      var members := Members(st.db, ids, d, domain);
      Grouping(
        st.db.(findings := st.db.findings + [Finding(run, d, TierFor(ScoresOf(RunLinks(st.db.links, run), members)))],
               findingStatements := st.db.findingStatements + Pairs(|st.db.findings|, members)),
        st.commits - 1, true)
  }

  function FindAll(st: Groups, run: nat, ids: seq<nat>, domains: seq<string>, domain: DomainOf): Groups {
    if domains == [] then st
    else
      var n := |domains| - 1;
      var before := FindAll(st, run, ids, domains[..n], domain);
      if !before.live then before else FindOne(before, run, ids, domains[n], domain)
  }

  /** `run_find`: `None` when it did not get to its end. */
  function FindRun(db: Db, run: nat, domain: DomainOf, commits: nat): (Db, Option<nat>) {
    var ids := EligibleBelow(db, run, |db.statements|);
    var domains := Dedupe(DomainsFor(db, ids, domain));
    var st := FindAll(Grouping(db, commits, true), run, ids, domains, domain);
    (st.db, if st.live then Some(|domains|) else None)
  }

  /** The body of the second loop for one domain: tier, finding and links in one commit. */
  method PersistFinding(store: Store, st: Groups, run: nat, links: seq<Link>, ids: seq<nat>, d: string,
                        members: seq<nat>, domain: DomainOf) returns (next: Groups)
    requires st.live && st.db == store.db
    requires links == RunLinks(st.db.links, run) && members == Members(st.db, ids, d, domain)
    modifies store
    ensures next == FindOne(st, run, ids, d, domain) && store.db == next.db
  {
    var tier := TierOfGroup(links, members);
    if st.commits == 0 {
      return st.(live := false);
    }
    var finding := |store.db.findings|;
    store.db := store.db.(
      findings := store.db.findings + [Finding(run, d, tier)],
      findingStatements := store.db.findingStatements + Pairs(finding, members));
    return Grouping(store.db, st.commits - 1, true);
  }

  /** The queries and filters before the grouping. */
  method EligibleStatements(db: Db, run: nat) returns (ids: seq<nat>)
    ensures ids == EligibleBelow(db, run, |db.statements|)
  {
    ids := [];
    for s := 0 to |db.statements|
      invariant ids == EligibleBelow(db, run, s)
    {
      if Eligible(db, run, s) {
        ids := ids + [s];
      }
    }
  }

  method RunFind(store: Store, run: nat, domain: DomainOf, commits: nat) returns (created: Option<nat>)
    modifies store
    ensures (store.db, created) == FindRun(old(store.db), run, domain, commits)
  {
    var ids := EligibleStatements(store.db, run);
    var order, groups := GroupByDomain(store.db, ids, domain);
    var links := RunLinks(store.db.links, run);
    var st := Grouping(store.db, commits, true);
    ghost var start := st;
    for k := 0 to |order|
      invariant st.live && st.db == store.db && st == FindAll(start, run, ids, order[..k], domain)
      invariant SameStatements(start.db, store.db)
    {
      FindAllNext(start, run, ids, order, k, domain);
      assert order[k] in order;
      SameMembers(start.db, store.db, ids, order[k], domain);
      st := PersistFinding(store, st, run, links, ids, order[k], groups[order[k]], domain);
      if !st.live {
        return None;
      }
    }
    assert order[..|order|] == order;
    return Some(|order|);
  }

  /** The first loop: a list of statements per domain, and the domains in the order they turn up. */
  method GroupByDomain(db: Db, ids: seq<nat>, domain: DomainOf)
    returns (order: seq<string>, groups: map<string, seq<nat>>)
    ensures order == Dedupe(DomainsFor(db, ids, domain))
    ensures forall d | d in order :: d in groups && groups[d] == Members(db, ids, d, domain)
  {
    order, groups := [], map[];
    for i := 0 to |ids|
      invariant order == Dedupe(DomainsFor(db, ids[..i], domain))
      invariant forall d :: d in groups <==> d in DomainsFor(db, ids[..i], domain)
      invariant forall d | d in groups :: groups[d] == Members(db, ids[..i], d, domain)
    {
      var d := DomainFor(db, ids[i], domain);
      assert ids[..i + 1][..i] == ids[..i];
      ghost var before := DomainsFor(db, ids[..i], domain);
      assert DomainsFor(db, ids[..i + 1], domain) == before + [d];
      assert (before + [d])[..|before|] == before;
      if d !in groups {
        NoMembersYet(db, ids[..i], d, domain);
        order := order + [d];
        groups := groups[d := [ids[i]]];
      } else {
        groups := groups[d := groups[d] + [ids[i]]];
      }
    }
    assert ids[..|ids|] == ids;
    DedupeKeepsFirst(DomainsFor(db, ids, domain));
  }

  method TierOfGroup(links: seq<Link>, members: seq<nat>) returns (tier: Tier)
    ensures tier == TierFor(ScoresOf(links, members))
  {
    var scores: set<Score> := {};
    for i := 0 to |members|
      invariant scores == ScoresOf(links, members[..i])
    {
      var best := BestScore(links, members[i]);
      ScoresSnoc(links, members, i);
      scores := scores + {best};
    }
    assert members[..|members|] == members;
    tier := if Full in scores then T1 else if Partial in scores then T2 else T3;
  }

  predicate SameStatements(a: Db, b: Db) {
    a.statements == b.statements && a.passages == b.passages && a.sources == b.sources && a.links == b.links
  }

  lemma ScoresSnoc(links: seq<Link>, ids: seq<nat>, i: nat)
    requires i < |ids|
    ensures ScoresOf(links, ids[..i + 1]) == ScoresOf(links, ids[..i]) + {Best(links, ids[i])}
  {
    assert forall j | 0 <= j < i :: ids[..i + 1][j] == ids[..i][j];
    assert ids[..i + 1][i] == ids[i];
  }

  lemma {:induction false} NoMembersYet(db: Db, ids: seq<nat>, d: string, domain: DomainOf)
    requires d !in DomainsFor(db, ids, domain)
    ensures Members(db, ids, d, domain) == []
  {
    if ids != [] {
      NoMembersYet(db, ids[..|ids| - 1], d, domain);
    }
  }

  lemma {:induction false} SameMembers(a: Db, b: Db, ids: seq<nat>, d: string, domain: DomainOf)
    requires a.statements == b.statements && a.passages == b.passages && a.sources == b.sources
    ensures Members(a, ids, d, domain) == Members(b, ids, d, domain)
  {
    if ids != [] {
      SameMembers(a, b, ids[..|ids| - 1], d, domain);
    }
  }

  lemma {:induction false} StopsWhere(st: Groups, run: nat, ids: seq<nat>, domains: seq<string>, k: nat,
                                      domain: DomainOf)
    requires k <= |domains|
    ensures var part := FindAll(st, run, ids, domains[..k], domain);
      !part.live ==> FindAll(st, run, ids, domains, domain) == part
  {
    if k == |domains| {
      assert domains[..k] == domains;
    } else {
      var n := |domains| - 1;
      assert domains[..n][..k] == domains[..k];
      StopsWhere(st, run, ids, domains[..n], k, domain);
    }
  }

  /** One turn of the loop; one that does not get through is the last. */
  lemma FindAllNext(st: Groups, run: nat, ids: seq<nat>, domains: seq<string>, k: nat, domain: DomainOf)
    requires k < |domains| && FindAll(st, run, ids, domains[..k], domain).live
    ensures var next := FindOne(FindAll(st, run, ids, domains[..k], domain), run, ids, domains[k], domain);
      && FindAll(st, run, ids, domains[..k + 1], domain) == next
      && (!next.live ==> FindAll(st, run, ids, domains, domain) == next)
  {
    assert domains[..k + 1][..k] == domains[..k];
    StopsWhere(st, run, ids, domains, k + 1, domain);
  }

  // ------------------------------------------------------------------- partition

  ghost predicate HasVerifyScore(links: seq<Link>, s: nat, score: Score) {
    exists l | l in links :: l.statement == s && l.how == Verify && l.score == score
  }

  /** The best score is the greatest of the verify links, however the links are ordered. */
  lemma {:induction false} BestIsGreatest(links: seq<Link>, s: nat)
    ensures Best(links, s) == if HasVerifyScore(links, s, Full) then Full
                              else if HasVerifyScore(links, s, Partial) then Partial
                              else Unsupported
  {
    if links != [] {
      var n := |links| - 1;
      BestIsGreatest(links[..n], s);
      assert links == links[..n] + [links[n]];
      forall score
        ensures HasVerifyScore(links, s, score) <==>
                HasVerifyScore(links[..n], s, score)
                  || (links[n].statement == s && links[n].how == Verify && links[n].score == score)
      {
      }
    }
  }

  lemma {:induction false} MembersAre(db: Db, ids: seq<nat>, d: string, domain: DomainOf)
    ensures forall s :: s in Members(db, ids, d, domain) <==> s in ids && DomainFor(db, s, domain) == d
    ensures NoDup(ids) ==> NoDup(Members(db, ids, d, domain))
  {
    if ids != [] {
      var n := |ids| - 1;
      MembersAre(db, ids[..n], d, domain);
      assert ids == ids[..n] + [ids[n]];
      var before := Members(db, ids[..n], d, domain);
      if NoDup(ids) {
        forall i | 0 <= i < |before| ensures before[i] != ids[n] {
          assert before[i] in before;
        }
      }
    }
  }

  lemma {:induction false} EligiblesAre(db: Db, run: nat, n: nat)
    requires n <= |db.statements|
    ensures forall s :: s in EligibleBelow(db, run, n) <==> 0 <= s < n && Eligible(db, run, s)
    ensures NoDup(EligibleBelow(db, run, n))
  {
    if n > 0 {
      EligiblesAre(db, run, n - 1);
      var before := EligibleBelow(db, run, n - 1);
      forall i | 0 <= i < |before| ensures before[i] != n - 1 {
        assert before[i] in before;
      }
    }
  }

  lemma {:induction false} DomainsAre(db: Db, ids: seq<nat>, domain: DomainOf)
    ensures forall s | s in ids :: DomainFor(db, s, domain) in DomainsFor(db, ids, domain)
  {
    if ids != [] {
      var n := |ids| - 1;
      DomainsAre(db, ids[..n], domain);
      assert ids == ids[..n] + [ids[n]];
    }
  }

  function FindingRows(db: Db, run: nat, ids: seq<nat>, domains: seq<string>, domain: DomainOf): seq<Finding> {
    seq(|domains|, k requires 0 <= k < |domains| =>
      Finding(run, domains[k], TierFor(ScoresOf(RunLinks(db.links, run), Members(db, ids, domains[k], domain)))))
  }

  function LinkRows(db: Db, first: nat, ids: seq<nat>, domains: seq<string>, domain: DomainOf): seq<(nat, nat)> {
    if domains == [] then []
    else
      var n := |domains| - 1;
      LinkRows(db, first, ids, domains[..n], domain) + Pairs(first + n, Members(db, ids, domains[n], domain))
  }

  /** The tables with the findings and links of some domains written. */
  function Written(db: Db, run: nat, ids: seq<nat>, domains: seq<string>, domain: DomainOf): Db {
    db.(findings := db.findings + FindingRows(db, run, ids, domains, domain),
        findingStatements := db.findingStatements + LinkRows(db, |db.findings|, ids, domains, domain))
  }

  /** One more domain. */
  lemma FindOneWrites(db: Db, before: Groups, run: nat, ids: seq<nat>, domains: seq<string>, d: string,
                      domain: DomainOf)
    requires before.db == Written(db, run, ids, domains, domain) && before.commits > 0
    ensures FindOne(before, run, ids, d, domain).db == Written(db, run, ids, domains + [d], domain)
  {
    SameMembers(db, before.db, ids, d, domain);
    var all := domains + [d];
    assert all[..|domains|] == domains;
    assert FindingRows(db, run, ids, all, domain)[..|domains|] == FindingRows(db, run, ids, domains, domain);
  }

  /** What the loop over domains has written when it gets to its end. */
  lemma {:induction false} FindAllWrites(db: Db, commits: nat, run: nat, ids: seq<nat>, domains: seq<string>,
                                         domain: DomainOf)
    ensures var st := FindAll(Grouping(db, commits, true), run, ids, domains, domain);
      st.live ==> st.db == Written(db, run, ids, domains, domain)
  {
    if domains != [] {
      var n := |domains| - 1;
      FindAllWrites(db, commits, run, ids, domains[..n], domain);
      var before := FindAll(Grouping(db, commits, true), run, ids, domains[..n], domain);
      if before.live && before.commits > 0 {
        FindOneWrites(db, before, run, ids, domains[..n], domains[n], domain);
        assert domains[..n] + [domains[n]] == domains;
      }
    }
  }

  lemma PairsAre(f: nat, ids: seq<nat>)
    ensures forall g: nat, s: nat :: (g, s) in Pairs(f, ids) <==> g == f && s in ids
    ensures NoDup(ids) ==> NoDup(Pairs(f, ids))
  {
    forall s: nat | s in ids ensures (f, s) in Pairs(f, ids) {
      var i :| 0 <= i < |ids| && ids[i] == s;
      assert Pairs(f, ids)[i] == (f, s);
    }
  }

  /** Statement `s` is linked to finding `f` exactly when `f` is the new finding of its domain. */
  lemma {:induction false} LinkRowsAre(db: Db, first: nat, ids: seq<nat>, domains: seq<string>, domain: DomainOf)
    ensures forall f: nat, s: nat :: (
              (f, s) in LinkRows(db, first, ids, domains, domain)
         <==> first <= f < first + |domains| && s in ids && DomainFor(db, s, domain) == domains[f - first])
    ensures NoDup(ids) ==> NoDup(LinkRows(db, first, ids, domains, domain))
  {
    if domains != [] {
      var n := |domains| - 1;
      LinkRowsAre(db, first, ids, domains[..n], domain);
      MembersAre(db, ids, domains[n], domain);
      PairsAre(first + n, Members(db, ids, domains[n], domain));
      var before := LinkRows(db, first, ids, domains[..n], domain);
      var all := LinkRows(db, first, ids, domains, domain);
      forall i, j | NoDup(ids) && 0 <= i < j < |all| ensures all[i] != all[j] {
        if i < |before| {
          assert all[i] == before[i] && (before[i].0, before[i].1) in before;
        }
      }
    }
  }

  /** Links without repetition that give each of `ids` one finding are as many as `ids`. */
  lemma OneLinkEach(links: seq<(nat, nat)>, ids: seq<nat>)
    requires NoDup(links) && NoDup(ids)
    requires forall p, q | p in links && q in links && p.1 == q.1 :: p == q
    requires forall p | p in links :: p.1 in ids
    requires forall s | s in ids :: exists f: nat :: (f, s) in links
    ensures |links| == |ids|
  {
    var seconds: seq<nat> := seq(|links|, i requires 0 <= i < |links| => links[i].1);
    forall i, j | 0 <= i < j < |seconds| ensures seconds[i] != seconds[j] {
      assert links[i] in links && links[j] in links;
    }
    NoDupSize(seconds);
    NoDupSize(ids);
    forall s | s in ids ensures s in seconds {
      var f: nat :| (f, s) in links;
      var i :| 0 <= i < |links| && links[i] == (f, s);
      assert seconds[i] == s;
    }
    forall s | s in seconds ensures s in ids {
      var i :| 0 <= i < |seconds| && seconds[i] == s;
      assert links[i] in links;
    }
    assert Elements(seconds) == Elements(ids);
  }

  /** The domain groups hold every id, so their links are as many as the ids. */
  lemma LinkRowsCount(db: Db, first: nat, ids: seq<nat>, domains: seq<string>, domain: DomainOf)
    requires NoDup(ids) && NoDup(domains) && (forall s | s in ids :: DomainFor(db, s, domain) in domains)
    ensures |LinkRows(db, first, ids, domains, domain)| == |ids|
  {
    var links := LinkRows(db, first, ids, domains, domain);
    LinkRowsAre(db, first, ids, domains, domain);
    forall p, q | p in links && q in links && p.1 == q.1 ensures p == q {
      assert (p.0, p.1) in links && (q.0, q.1) in links;
    }
    forall p | p in links ensures p.1 in ids {
      assert (p.0, p.1) in links;
    }
    forall s | s in ids ensures exists f: nat :: (f, s) in links {
      var k :| 0 <= k < |domains| && domains[k] == DomainFor(db, s, domain);
      assert (first + k, s) in links;
    }
    OneLinkEach(links, ids);
  }

  /** The statements the stage put in finding `f`, being the links written after position `from`. */
  ghost predicate InFinding(db: Db, from: nat, f: nat, s: nat) {
    from <= |db.findingStatements| && (f, s) in db.findingStatements[from..]
  }

  /** What a find stage that returns has written, and that its domains cover the eligible statements. */
  lemma FindRunWrites(db: Db, run: nat, domain: DomainOf, commits: nat)
    requires FindRun(db, run, domain, commits).1.Some?
    ensures var ids := EligibleBelow(db, run, |db.statements|);
      var domains := Dedupe(DomainsFor(db, ids, domain));
      && FindRun(db, run, domain, commits).0 == db.(
           findings := db.findings + FindingRows(db, run, ids, domains, domain),
           findingStatements := db.findingStatements + LinkRows(db, |db.findings|, ids, domains, domain))
      && NoDup(ids) && NoDup(domains)
      && (forall s | s in ids :: DomainFor(db, s, domain) in domains)
      && (forall s :: s in ids <==> 0 <= s < |db.statements| && Eligible(db, run, s))
  {
    var ids := EligibleBelow(db, run, |db.statements|);
    EligiblesAre(db, run, |db.statements|);
    DedupeKeepsFirst(DomainsFor(db, ids, domain));
    DomainsAre(db, ids, domain);
    FindAllWrites(db, commits, run, ids, Dedupe(DomainsFor(db, ids, domain)), domain);
  }

  /**
   Statement `s` is in new finding `f` exactly when it is a verified statement of the run whose passage
   belongs to a source of the run, and `f` is the new finding of that source's domain.
   */
  lemma InFindingIff(db: Db, run: nat, domain: DomainOf, commits: nat, f: nat, s: nat)
    requires FindRun(db, run, domain, commits).1.Some?
    ensures var db' := FindRun(db, run, domain, commits).0;
      InFinding(db', |db.findingStatements|, f, s) <==>
        && s < |db.statements| && db.statements[s].run == run && db.statements[s].status == Verified
        && db.statements[s].passage < |db.passages|
        && var source := db.passages[db.statements[s].passage].source;
           && source < |db.sources| && db.sources[source].run == run
           && |db.findings| <= f < |db'.findings| && db'.findings[f].domain == domain(db.sources[source].uri)
  {
    FindRunWrites(db, run, domain, commits);
    var ids := EligibleBelow(db, run, |db.statements|);
    var domains := Dedupe(DomainsFor(db, ids, domain));
    WrittenIff(db, FindRun(db, run, domain, commits).0, run, ids, domains, domain, f, s);
  }

  lemma TailIn<T>(a: seq<T>, b: seq<T>, x: T)
    ensures x in (a + b)[|a|..] <==> x in b
  {
    assert (a + b)[|a|..] == b;
  }

  lemma LinkRowIff(db: Db, first: nat, ids: seq<nat>, domains: seq<string>, domain: DomainOf, f: nat, s: nat)
    ensures (f, s) in LinkRows(db, first, ids, domains, domain)
       <==> first <= f < first + |domains| && s in ids && DomainFor(db, s, domain) == domains[f - first]
  {
    LinkRowsAre(db, first, ids, domains, domain);
  }

  lemma WrittenIff(db: Db, after: Db, run: nat, ids: seq<nat>, domains: seq<string>, domain: DomainOf, f: nat, s: nat)
    requires after.findings == db.findings + FindingRows(db, run, ids, domains, domain)
    requires after.findingStatements == db.findingStatements + LinkRows(db, |db.findings|, ids, domains, domain)
    ensures InFinding(after, |db.findingStatements|, f, s) <==>
              s in ids && |db.findings| <= f < |after.findings| && after.findings[f].domain == DomainFor(db, s, domain)
  {
    TailIn(db.findingStatements, LinkRows(db, |db.findings|, ids, domains, domain), (f, s));
    LinkRowIff(db, |db.findings|, ids, domains, domain, f, s);
    if |db.findings| <= f < |after.findings| {
      NewFinding(db, after, run, ids, domains, domain, f);
    }
  }

  /**
   A find stage that returns puts every eligible statement in a new finding; the new links number those
   statements.
   */
  lemma FindCovers(db: Db, run: nat, domain: DomainOf, commits: nat)
    requires FindRun(db, run, domain, commits).1.Some?
    ensures var db' := FindRun(db, run, domain, commits).0;
      && db.findingStatements <= db'.findingStatements
      && |db'.findingStatements| == |db.findingStatements| + |EligibleBelow(db, run, |db.statements|)|
      && (forall s: nat | s < |db.statements| && Eligible(db, run, s) ::
            exists f: nat :: InFinding(db', |db.findingStatements|, f, s))
  {
    FindRunWrites(db, run, domain, commits);
    var db' := FindRun(db, run, domain, commits).0;
    var ids := EligibleBelow(db, run, |db.statements|);
    var domains := Dedupe(DomainsFor(db, ids, domain));
    LinkRowsCount(db, |db.findings|, ids, domains, domain);
    forall s: nat | s < |db.statements| && Eligible(db, run, s)
      ensures exists f: nat :: InFinding(db', |db.findingStatements|, f, s)
    {
      var f := FindingOf(db, run, domain, commits, s);
    }
  }

  lemma FindingOf(db: Db, run: nat, domain: DomainOf, commits: nat, s: nat) returns (f: nat)
    requires FindRun(db, run, domain, commits).1.Some? && s < |db.statements| && Eligible(db, run, s)
    ensures InFinding(FindRun(db, run, domain, commits).0, |db.findingStatements|, f, s)
  {
    FindRunWrites(db, run, domain, commits);
    var ids := EligibleBelow(db, run, |db.statements|);
    var domains := Dedupe(DomainsFor(db, ids, domain));
    f := LinkedFinding(db, FindRun(db, run, domain, commits).0, run, ids, domains, domain, s);
  }

  lemma LinkedFinding(db: Db, after: Db, run: nat, ids: seq<nat>, domains: seq<string>, domain: DomainOf, s: nat)
    returns (f: nat)
    requires after.findings == db.findings + FindingRows(db, run, ids, domains, domain)
    requires after.findingStatements == db.findingStatements + LinkRows(db, |db.findings|, ids, domains, domain)
    requires s in ids && DomainFor(db, s, domain) in domains
    ensures InFinding(after, |db.findingStatements|, f, s)
  {
    f := |db.findings| + FirstAt(domains, DomainFor(db, s, domain));
    WrittenIff(db, after, run, ids, domains, domain, f, s);
  }

  /** No statement is in two new findings. */
  lemma FindSeparates(db: Db, run: nat, domain: DomainOf, commits: nat, f: nat, g: nat, s: nat)
    requires FindRun(db, run, domain, commits).1.Some?
    requires InFinding(FindRun(db, run, domain, commits).0, |db.findingStatements|, f, s)
    requires InFinding(FindRun(db, run, domain, commits).0, |db.findingStatements|, g, s)
    ensures f == g
  {
    FindRunWrites(db, run, domain, commits);
    var ids := EligibleBelow(db, run, |db.statements|);
    LinkedOnce(db, FindRun(db, run, domain, commits).0, run, ids, Dedupe(DomainsFor(db, ids, domain)), domain, f, g, s);
  }

  lemma LinkedOnce(db: Db, after: Db, run: nat, ids: seq<nat>, domains: seq<string>, domain: DomainOf, f: nat, g: nat,
                   s: nat)
    requires after.findings == db.findings + FindingRows(db, run, ids, domains, domain)
    requires after.findingStatements == db.findingStatements + LinkRows(db, |db.findings|, ids, domains, domain)
    requires NoDup(domains) && InFinding(after, |db.findingStatements|, f, s)
          && InFinding(after, |db.findingStatements|, g, s)
    ensures f == g
  {
    WrittenIff(db, after, run, ids, domains, domain, f, s);
    WrittenIff(db, after, run, ids, domains, domain, g, s);
    NewFinding(db, after, run, ids, domains, domain, f);
    NewFinding(db, after, run, ids, domains, domain, g);
  }

  /** Finding `f` of the tables after the stage, by its position among the new ones. */
  lemma NewFinding(db: Db, after: Db, run: nat, ids: seq<nat>, domains: seq<string>, domain: DomainOf, f: nat)
    requires after.findings == db.findings + FindingRows(db, run, ids, domains, domain)
          && |db.findings| <= f < |after.findings|
    ensures f - |db.findings| < |domains|
    ensures after.findings[f].run == run && after.findings[f].domain == domains[f - |db.findings|]
  {
  }

  /** Every new finding belongs to the run and has a statement. */
  lemma FindingsHaveStatements(db: Db, run: nat, domain: DomainOf, commits: nat, f: nat) returns (s: nat)
    requires FindRun(db, run, domain, commits).1.Some?
    requires |db.findings| <= f < |FindRun(db, run, domain, commits).0.findings|
    ensures FindRun(db, run, domain, commits).0.findings[f].run == run
    ensures InFinding(FindRun(db, run, domain, commits).0, |db.findingStatements|, f, s)
  {
    FindRunWrites(db, run, domain, commits);
    var ids := EligibleBelow(db, run, |db.statements|);
    var all := DomainsFor(db, ids, domain);
    s := FirstMember(db, FindRun(db, run, domain, commits).0, run, ids, all, domain, f);
    WrittenIff(db, FindRun(db, run, domain, commits).0, run, ids, Dedupe(all), domain, f, s);
  }

  lemma FirstMember(db: Db, after: Db, run: nat, ids: seq<nat>, all: seq<string>, domain: DomainOf, f: nat)
    returns (s: nat)
    requires after.findings == db.findings + FindingRows(db, run, ids, Dedupe(all), domain)
          && |db.findings| <= f < |after.findings|
    requires all == DomainsFor(db, ids, domain)
    ensures after.findings[f].run == run && s in ids && after.findings[f].domain == DomainFor(db, s, domain)
  {
    NewFinding(db, after, run, ids, Dedupe(all), domain, f);
    DedupeMember(all, f - |db.findings|);
    s := SomeMember(db, ids, Dedupe(all)[f - |db.findings|], domain);
  }

  lemma DedupeMember(found: seq<string>, k: nat)
    requires k < |Dedupe(found)|
    ensures Dedupe(found)[k] in found
  {
    DedupeKeepsFirst(found);
    assert Dedupe(found)[k] in Dedupe(found);
  }

  lemma {:induction false} SomeMember(db: Db, ids: seq<nat>, d: string, domain: DomainOf) returns (s: nat)
    requires d in DomainsFor(db, ids, domain)
    ensures s in ids && DomainFor(db, s, domain) == d
  {
    var n := |ids| - 1;
    if DomainFor(db, ids[n], domain) == d {
      s := ids[n];
    } else {
      s := SomeMember(db, ids[..n], d, domain);
    }
  }

  lemma {:induction false} FindAllCounts(db: Db, commits: nat, run: nat, ids: seq<nat>, domains: seq<string>,
                                         domain: DomainOf)
    ensures var st := FindAll(Grouping(db, commits, true), run, ids, domains, domain);
      && (st.live <==> commits >= |domains|)
      && (st.live ==> st.commits == commits - |domains|)
      && |st.db.findings| == |db.findings| + Min(commits, |domains|)
  {
    if domains != [] {
      FindAllCounts(db, commits, run, ids, domains[..|domains| - 1], domain);
    }
  }

  /** The domains of the eligible statements. */
  function DomainSet(db: Db, run: nat, domain: DomainOf): set<string> {
    set s: nat | s < |db.statements| && Eligible(db, run, s) :: DomainFor(db, s, domain)
  }

  lemma {:induction false} DomainsAreSet(db: Db, ids: seq<nat>, domain: DomainOf)
    ensures Elements(DomainsFor(db, ids, domain)) == set s | s in ids :: DomainFor(db, s, domain)
  {
    if ids != [] {
      var n := |ids| - 1;
      DomainsAreSet(db, ids[..n], domain);
      assert ids == ids[..n] + [ids[n]];
      assert Elements(DomainsFor(db, ids, domain))
          == Elements(DomainsFor(db, ids[..n], domain)) + {DomainFor(db, ids[n], domain)};
    }
  }

  /**
   The stage makes one finding per domain until its commits run out: it returns exactly if there are
   enough, and then with the number of domains.
   */
  lemma FindReturnsIff(db: Db, run: nat, domain: DomainOf, commits: nat)
    ensures var (db', created) := FindRun(db, run, domain, commits);
      && (created.Some? <==> commits >= |DomainSet(db, run, domain)|)
      && (created.Some? ==> created.value == |DomainSet(db, run, domain)|)
      && |db'.findings| == |db.findings| + Min(commits, |DomainSet(db, run, domain)|)
  {
    var ids := EligibleBelow(db, run, |db.statements|);
    var all := DomainsFor(db, ids, domain);
    EligiblesAre(db, run, |db.statements|);
    DomainsAreSet(db, ids, domain);
    assert Elements(all) == DomainSet(db, run, domain);
    DedupeKeepsFirst(all);
    NoDupSize(Dedupe(all));
    assert Elements(Dedupe(all)) == Elements(all);
    FindAllCounts(db, commits, run, ids, Dedupe(all), domain);
  }

  /** The run has a verify link of that score for the statement. */
  ghost predicate RunScored(db: Db, run: nat, s: nat, score: Score) {
    exists l | l in db.links :: l.run == run && l.statement == s && l.how == Verify && l.score == score
  }

  lemma ScoredIff(db: Db, run: nat, s: nat, score: Score)
    ensures HasVerifyScore(RunLinks(db.links, run), s, score) <==> RunScored(db, run, s, score)
  {
    RunLinksAre(db.links, run);
  }

  /**
   Each tier is the greatest verify score the run gave to its group: T1 iff some full link, T3 iff no
   full or partial one.
   */
  lemma TiersAreGreatest(db: Db, run: nat, domain: DomainOf, commits: nat, f: nat)
    requires FindRun(db, run, domain, commits).1.Some?
    requires |db.findings| <= f < |FindRun(db, run, domain, commits).0.findings|
    ensures var db' := FindRun(db, run, domain, commits).0;
      var from := |db.findingStatements|;
      && (db'.findings[f].tier == T1 <==> exists s: nat | InFinding(db', from, f, s) :: RunScored(db, run, s, Full))
      && (db'.findings[f].tier == T3 <==>
            forall s: nat | InFinding(db', from, f, s) ::
              !RunScored(db, run, s, Full) && !RunScored(db, run, s, Partial))
  {
    FindRunWrites(db, run, domain, commits);
    var db' := FindRun(db, run, domain, commits).0;
    var ids := EligibleBelow(db, run, |db.statements|);
    var d := db'.findings[f].domain;
    var members := Members(db, ids, d, domain);
    MembersAre(db, ids, d, domain);
    ScoresAre(RunLinks(db.links, run), members);
    forall s: nat, score {
      ScoredIff(db, run, s, score);
    }
    forall s: nat ensures s in members <==> InFinding(db', |db.findingStatements|, f, s) {
      InFindingIff(db, run, domain, commits, f, s);
    }
  }

  lemma ScoresAre(links: seq<Link>, ids: seq<nat>)
    ensures Full in ScoresOf(links, ids) <==> exists s | s in ids :: HasVerifyScore(links, s, Full)
    ensures TierFor(ScoresOf(links, ids)) == T3
       <==> forall s | s in ids :: !HasVerifyScore(links, s, Full) && !HasVerifyScore(links, s, Partial)
  {
    forall s: nat {
      BestIsGreatest(links, s);
    }
    forall s | s in ids ensures Best(links, s) in ScoresOf(links, ids) {
      var i :| 0 <= i < |ids| && ids[i] == s;
    }
  }

  lemma {:induction false} RunLinksAre(links: seq<Link>, run: nat)
    ensures forall l :: l in RunLinks(links, run) <==> l in links && l.run == run
  {
    if links != [] {
      var n := |links| - 1;
      RunLinksAre(links[..n], run);
      assert links == links[..n] + [links[n]];
    }
  }
}
