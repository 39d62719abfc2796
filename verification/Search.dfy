/** The search stage of `app/pipeline/stages/search.py` and what its checkpoint keeps of the URL list. */
module Search {
  import opened Prelude

  /**
   All hits of all queries in order, or `None` as soon as one connector call raises;
   `search(n, query)` is the reply to query number `n`.
   */
  function AllHits(queries: seq<string>, search: (nat, string) -> Option<seq<string>>): Option<seq<string>> {
    if queries == [] then Some([])
    else
      var n := |queries| - 1;
      match AllHits(queries[..n], search)
      case None => None
      case Some(hits) =>
        match search(n, queries[n])
        case None => None
        case Some(more) => Some(hits + more)
  }

  lemma OneMore(before: seq<string>, uri: string)
    ensures Dedupe(before + [uri]) == Dedupe(before) + (if uri in before then [] else [uri])
    ensures Elements(before + [uri]) == Elements(before) + {uri}
    ensures uri in Elements(before) <==> uri in before
  {
    assert (before + [uri])[..|before|] == before;
  }

  /** The inner loop: the hits of one query that were not seen before; `hits` are those of the queries before it. */
  method AddUnseen(urls: seq<string>, seen: set<string>, found: seq<string>, ghost hits: seq<string>)
      returns (urls': seq<string>, seen': set<string>)
    requires urls == Dedupe(hits) && seen == Elements(hits)
    ensures urls' == Dedupe(hits + found) && seen' == Elements(hits + found)
  {
    urls', seen' := urls, seen;
    ghost var all := hits;
    for i := 0 to |found|
      invariant all == hits + found[..i]
      invariant urls' == Dedupe(all) && seen' == Elements(all)
    {
      var uri := found[i];
      OneMore(all, uri);
      if uri !in seen' {
        seen' := seen' + {uri};
        urls' := urls' + [uri];
      }
      all := all + [uri];
    }
    assert all == hits + found;
  }

  /** `run_search`: `None` stands for a raised error; a missing plan raises before any connector call. */
  method RunSearch(plan: Option<seq<string>>, search: (nat, string) -> Option<seq<string>>)
    returns (r: Option<seq<string>>)
    ensures r ==
      match plan
      case None => None
      case Some(queries) =>
        (match AllHits(queries, search)
         case None => None
         case Some(hits) => Some(Dedupe(hits)))
  {
    if plan.None? {
      return None;
    }
    var queries := plan.value;
    var urls: seq<string> := [];
    var seen: set<string> := {};
    ghost var hits: seq<string> := [];
    for q := 0 to |queries|
      invariant AllHits(queries[..q], search) == Some(hits)
      invariant urls == Dedupe(hits) && seen == Elements(hits)
    {
      assert queries[..q + 1][..q] == queries[..q];
      var found := search(q, queries[q]);
      if found.None? {
        StaysRaised(queries, search, q + 1);
        return None;
      }
      urls, seen := AddUnseen(urls, seen, found.value, hits);
      hits := hits + found.value;
    }
    assert queries[..|queries|] == queries;
    return Some(urls);
  }

  lemma {:induction false} StaysRaised(queries: seq<string>, search: (nat, string) -> Option<seq<string>>, q: nat)
    requires q <= |queries| && AllHits(queries[..q], search).None?
    ensures AllHits(queries, search).None?
  {
    if q == |queries| {
      assert queries[..q] == queries;
    } else {
      var n := |queries| - 1;
      assert queries[..n][..q] == queries[..q];
      StaysRaised(queries[..n], search, q);
    }
  }

  /** How many hits the queries before number `q` have. */
  function HitsBefore(queries: seq<string>, search: (nat, string) -> Option<seq<string>>, q: nat): nat
    requires q <= |queries|
  {
    if q == 0 then 0
    else
      HitsBefore(queries, search, q - 1)
      + (match search(q - 1, queries[q - 1]) case None => 0 case Some(found) => |found|)
  }

  /** The hits of query number `q` stand together, right after those of the queries before it. */
  ghost predicate Placed(queries: seq<string>, search: (nat, string) -> Option<seq<string>>, hits: seq<string>, q: nat)
    requires q < |queries|
  {
    var reply, from := search(q, queries[q]), HitsBefore(queries, search, q);
    reply.Some? && from + |reply.value| <= |hits| && hits[from..from + |reply.value|] == reply.value
  }

  lemma HitsBeforeFront(queries: seq<string>, search: (nat, string) -> Option<seq<string>>, q: nat)
    requires q < |queries|
    ensures HitsBefore(queries[..|queries| - 1], search, q) == HitsBefore(queries, search, q)
  {
    if q > 0 {
      HitsBeforeFront(queries, search, q - 1);
    }
  }

  /**
   The search raises exactly if some connector call does; otherwise the hits are those of each query
   in its own order, the queries in the order of the plan, and nothing else.
   */
  lemma {:induction false} AllHitsAre(queries: seq<string>, search: (nat, string) -> Option<seq<string>>)
    ensures AllHits(queries, search).None? <==> exists q: nat :: q < |queries| && search(q, queries[q]).None?
    ensures AllHits(queries, search).Some? ==>
              var hits := AllHits(queries, search).value;
              && |hits| == HitsBefore(queries, search, |queries|)
              && forall q: nat | q < |queries| :: Placed(queries, search, hits, q)
  {
    if queries != [] {
      var n, front := |queries| - 1, queries[..|queries| - 1];
      AllHitsAre(front, search);
      HitsBeforeFront(queries, search, n);
      if q: nat :| q < n && search(q, queries[q]).None? {
        assert search(q, front[q]).None?;
      }
      if AllHits(queries, search).Some? {
        var hits, before := AllHits(queries, search).value, AllHits(front, search).value;
        forall q: nat | q < |queries| ensures Placed(queries, search, hits, q) {
          HitsBeforeFront(queries, search, q);
          if q < n {
            assert Placed(front, search, before, q);
          }
        }
      }
    }
  }

  // ------------------------------------------------------------- the checkpoint

  /** The URL list as the checkpoint stores it: every string of the state is redacted on its own. */
  function SavedUrls(urls: seq<string>, redact: string -> string): seq<string> {
    seq(|urls|, i requires 0 <= i < |urls| => redact(urls[i]))
  }

  /** The stored list is free of duplicates exactly when redaction keeps the found URIs apart. */
  lemma SavedUrlsDistinct(hits: seq<string>, redact: string -> string)
    ensures NoDup(SavedUrls(Dedupe(hits), redact))
       <==> forall u, v | u in hits && v in hits && u != v :: redact(u) != redact(v)
  {
    DedupeKeepsFirst(hits);
    var urls, saved := Dedupe(hits), SavedUrls(Dedupe(hits), redact);
    if NoDup(saved) {
      forall u, v | u in hits && v in hits && u != v ensures redact(u) != redact(v) {
        assert u in urls && v in urls;
        var i :| 0 <= i < |urls| && urls[i] == u;
        var j :| 0 <= j < |urls| && urls[j] == v;
        assert saved[i] == redact(u) && saved[j] == redact(v);
      }
    }
    if forall u, v | u in hits && v in hits && u != v :: redact(u) != redact(v) {
      forall i, j | 0 <= i < j < |saved| ensures saved[i] != saved[j] {
        assert urls[i] in urls && urls[j] in urls;
      }
    }
  }
}
