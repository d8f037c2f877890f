/** Candidate selection of a search run: over-fetch, drop the people already seen,
    keep the first `cap` (src/leads/apollo-search.processor.ts:50-61). */
module OverFetch {
  import opened Prelude

  /** An Apollo person id. */
  type Person = nat

  const PAGE_CEILING: nat := 100

  function Take<T>(s: seq<T>, n: nat): seq<T> { s[..Min(n, |s|)] }

  /** The people of `s` not in `excluded`, in order. */
  function Fresh(s: seq<Person>, excluded: set<Person>): (rest: seq<Person>)
    ensures |rest| <= |s|
  {
    if s == [] then []
    else Fresh(s[..|s| - 1], excluded) + if s[|s| - 1] in excluded then [] else [s[|s| - 1]]
  }

  lemma {:induction false} FreshMembers(s: seq<Person>, excluded: set<Person>)
    ensures forall p :: p in Fresh(s, excluded) <==> p in s && p !in excluded
  {
    if s != [] {
      var init, last := s[..|s| - 1], s[|s| - 1];
      FreshMembers(init, excluded);
      assert s == init + [last];
    }
  }

  /** What a run keeps of the people the search returned. */
  function Candidates(found: seq<Person>, excluded: set<Person>, cap: nat): (candidates: seq<Person>)
    ensures |candidates| <= cap
    ensures forall k :: 0 <= k < |candidates| ==> candidates[k] in found && candidates[k] !in excluded
  {
    FreshMembers(found, excluded);
    Take(Fresh(found, excluded), cap)
  }

  /** The candidates are everybody not excluded up to some point of the answer, in order;
      the run only stops looking before the answer's end once it has `cap` of them. */
  lemma CandidatesAreTheFirst(found: seq<Person>, excluded: set<Person>, cap: nat) returns (seen: nat)
    ensures seen <= |found| && Candidates(found, excluded, cap) == Fresh(found[..seen], excluded)
    ensures seen == |found| || |Candidates(found, excluded, cap)| == cap
    ensures forall k :: 0 <= k < seen && found[k] !in excluded ==> found[k] in Candidates(found, excluded, cap)
  {
    seen := FirstCap(found, excluded, cap);
    FreshMembers(found[..seen], excluded);
    assert forall k :: 0 <= k < seen ==> found[k] in found[..seen];
  }

  lemma {:induction false} FirstCap(found: seq<Person>, excluded: set<Person>, cap: nat) returns (seen: nat)
    ensures seen <= |found| && Take(Fresh(found, excluded), cap) == Fresh(found[..seen], excluded)
    ensures seen == |found| || |Fresh(found[..seen], excluded)| == cap
  {
    if |Fresh(found, excluded)| <= cap {
      seen := |found|;
      assert found[..seen] == found;
    } else {
      var init := found[..|found| - 1];
      seen := FirstCap(init, excluded, cap);
      assert found[..seen] == init[..seen];
      if seen == |init| { assert init[..seen] == init; }
    }
  }

  // ── Enough is fetched ─────────────────────────────────────────────────

  predicate NoRepeats(s: seq<Person>) {
    forall i, j :: 0 <= i < j < |s| ==> s[i] != s[j]
  }

  /** One page of a search whose answers are prefixes of `ranking`. */
  function Page(ranking: seq<Person>, excluded: set<Person>, cap: nat): seq<Person> {
    Take(ranking, Min(cap + |excluded|, PAGE_CEILING))
  }

  /** What a run does: fetch a page, drop, keep `cap`. */
  function Selected(ranking: seq<Person>, excluded: set<Person>, cap: nat): seq<Person> {
    Candidates(Page(ranking, excluded, cap), excluded, cap)
  }

  /** What is wanted: drop from the whole ranking, keep `cap`. */
  function Wanted(ranking: seq<Person>, excluded: set<Person>, cap: nat): seq<Person> {
    Take(Fresh(ranking, excluded), cap)
  }

  lemma {:induction false} FreshAppend(a: seq<Person>, b: seq<Person>, excluded: set<Person>)
    ensures Fresh(a + b, excluded) == Fresh(a, excluded) + Fresh(b, excluded)
    decreases |b|
  {
    if b == [] {
      assert a + b == a;
    } else {
      var init, last := b[..|b| - 1], b[|b| - 1];
      assert (a + b)[..|a + b| - 1] == a + init;
      FreshAppend(a, init, excluded);
    }
  }

  /** Pigeonhole: a duplicate-free page loses at most one person per exclusion. */
  lemma {:induction false} FreshIsLong(s: seq<Person>, excluded: set<Person>)
    requires NoRepeats(s)
    ensures |Fresh(s, excluded)| >= |s| - |excluded|
  {
    if s != [] {
      var init, last := s[..|s| - 1], s[|s| - 1];
      FreshIsLong(init, excluded - {last});
      FreshIgnores(init, excluded, last);
      if last !in excluded { assert excluded - {last} == excluded; }
    }
  }

  lemma {:induction false} FreshIgnores(s: seq<Person>, excluded: set<Person>, p: Person)
    requires p !in s
    ensures Fresh(s, excluded - {p}) == Fresh(s, excluded)
  {
    if s != [] { FreshIgnores(s[..|s| - 1], excluded, p); }
  }

  /** For one ranking the page suffices exactly when it yields `cap` fresh people
      or nobody fresh is beyond it. */
  lemma PageSufficesIff(ranking: seq<Person>, excluded: set<Person>, cap: nat)
    ensures var page := Page(ranking, excluded, cap);
      Selected(ranking, excluded, cap) == Wanted(ranking, excluded, cap)
      <==> (|Fresh(page, excluded)| >= cap || Fresh(ranking[|page|..], excluded) == [])
  {
    var page := Page(ranking, excluded, cap);
    assert ranking == page + ranking[|page|..];
    FreshAppend(page, ranking[|page|..], excluded);
    var here, beyond := Fresh(page, excluded), Fresh(ranking[|page|..], excluded);
    if |here| >= cap {
      assert (here + beyond)[..cap] == here[..cap];
    } else if beyond != [] {
      assert |Wanted(ranking, excluded, cap)| > |here|;
    } else {
      assert here + beyond == here;
    }
  }

  lemma OverFetchIsEnough(ranking: seq<Person>, excluded: set<Person>, cap: nat)
    requires NoRepeats(ranking) && cap + |excluded| <= 100
    ensures Selected(ranking, excluded, cap) == Wanted(ranking, excluded, cap)
  {
    var page := Page(ranking, excluded, cap);
    PageSufficesIff(ranking, excluded, cap);
    FreshIsLong(page, excluded);
    if |page| == |ranking| { assert ranking[|page|..] == []; }
  }

  lemma {:induction false} ListExcluded(excluded: set<Person>) returns (s: seq<Person>)
    ensures NoRepeats(s) && |s| == |excluded| && forall p :: p in s <==> p in excluded
  {
    if excluded == {} {
      s := [];
    } else {
      var p :| p in excluded;
      var rest := ListExcluded(excluded - {p});
      s := rest + [p];
    }
  }

  lemma {:induction false} NewPeople(taken: seq<Person>, n: nat) returns (s: seq<Person>)
    requires NoRepeats(taken)
    ensures NoRepeats(taken + s) && |s| == n
    ensures forall j :: 0 <= j < |s| ==> s[j] !in taken
    decreases n
  {
    if n == 0 {
      s := [];
      assert taken + s == taken;
    } else {
      var p := Above(taken);
      assert forall i :: 0 <= i < |taken| ==> taken[i] in taken;
      var rest := NewPeople(taken + [p], n - 1);
      s := [p] + rest;
      assert taken + s == taken + [p] + rest;
    }
  }

  lemma {:induction false} Above(s: seq<Person>) returns (p: Person)
    ensures forall q :: q in s ==> q < p
  {
    if s == [] {
      p := 0;
    } else {
      var below := Above(s[..|s| - 1]);
      p := below + s[|s| - 1] + 1;
      assert forall q :: q in s ==> q in s[..|s| - 1] || q == s[|s| - 1];
    }
  }

  lemma {:induction false} AllExcluded(s: seq<Person>, excluded: set<Person>)
    requires forall i :: 0 <= i < |s| ==> s[i] in excluded
    ensures Fresh(s, excluded) == []
  {
    if s != [] { AllExcluded(s[..|s| - 1], excluded); }
  }

  lemma {:induction false} NoneExcluded(s: seq<Person>, excluded: set<Person>)
    requires forall i :: 0 <= i < |s| ==> s[i] !in excluded
    ensures Fresh(s, excluded) == s
  {
    if s != [] {
      NoneExcluded(s[..|s| - 1], excluded);
      assert s == s[..|s| - 1] + [s[|s| - 1]];
    }
  }

  /** Past the page ceiling there is a ranking, excluded people first, on which the
      page misses someone the run should have found. */
  lemma CeilingMisses(excluded: set<Person>, cap: nat) returns (ranking: seq<Person>)
    requires cap > 0 && cap + |excluded| > 100
    ensures NoRepeats(ranking)
    ensures Selected(ranking, excluded, cap) != Wanted(ranking, excluded, cap)
  {
    var seen := ListExcluded(excluded);
    var more := NewPeople(seen, PAGE_CEILING + cap);
    ranking := seen + more;
    var page := Page(ranking, excluded, cap);
    PageSufficesIff(ranking, excluded, cap);
    if |seen| >= PAGE_CEILING {
      assert page == seen[..PAGE_CEILING];
      AllExcluded(page, excluded);
    } else {
      var tail := more[..PAGE_CEILING - |seen|];
      assert page == seen + tail;
      FreshAppend(seen, tail, excluded);
      AllExcluded(seen, excluded);
      NoneExcluded(tail, excluded);
    }
    var beyond := ranking[|page|..];
    assert beyond[|beyond| - 1] == more[|more| - 1];
    FreshMembers(beyond, excluded);
  }

  /** Over-fetching finds what is wanted on every ranking exactly when the cap and
      the exclusions together fit on one page. */
  lemma OverFetchIsEnoughIff(excluded: set<Person>, cap: nat)
    ensures (forall ranking :: NoRepeats(ranking) ==>
               Selected(ranking, excluded, cap) == Wanted(ranking, excluded, cap))
            <==> (cap == 0 || cap + |excluded| <= 100)
  {
    if cap == 0 {
    } else if cap + |excluded| <= 100 {
      forall ranking | NoRepeats(ranking)
        ensures Selected(ranking, excluded, cap) == Wanted(ranking, excluded, cap)
      {
        OverFetchIsEnough(ranking, excluded, cap);
      }
    } else {
      var ranking := CeilingMisses(excluded, cap);
    }
  }

  // ── Successive "get more" runs ────────────────────────────────────────

  function People(s: seq<Person>): set<Person> { set p | p in s }

  /** The people a job has after runs with these caps, each excluding all earlier ones. */
  function Collected(ranking: seq<Person>, caps: seq<nat>): seq<Person> {
    if caps == [] then []
    else
      var before := Collected(ranking, caps[..|caps| - 1]);
      before + Selected(ranking, People(before), caps[|caps| - 1])
  }

  function Total(caps: seq<nat>): nat {
    if caps == [] then 0 else Total(caps[..|caps| - 1]) + caps[|caps| - 1]
  }

  lemma {:induction false} PeopleCount(s: seq<Person>)
    requires NoRepeats(s)
    ensures |People(s)| == |s|
  {
    if s != [] {
      var init, last := s[..|s| - 1], s[|s| - 1];
      PeopleCount(init);
      assert People(s) == People(init) + {last};
      assert last !in init;
    }
  }

  /** However the caps are split over runs, the job ends up with a prefix of the
      ranking: everyone up to the total asked for, or up to the page ceiling. */
  lemma {:induction false} RunsCollectAPrefix(ranking: seq<Person>, caps: seq<nat>)
    requires NoRepeats(ranking)
    ensures Collected(ranking, caps) == Take(ranking, Min(Total(caps), 100))
    ensures NoRepeats(Collected(ranking, caps))
  {
    if caps != [] {
      var cap := caps[|caps| - 1];
      RunsCollectAPrefix(ranking, caps[..|caps| - 1]);
      var before := Collected(ranking, caps[..|caps| - 1]);
      PeopleCount(before);
      NextRunExtends(ranking, before, cap);
    }
  }

  lemma TailIsNew(ranking: seq<Person>, k: nat, j: nat)
    requires NoRepeats(ranking) && k <= j < |ranking|
    ensures ranking[j] !in People(ranking[..k])
  {
  }

  /** Everyone on the next page who is not excluded is new, and they fit under the cap. */
  lemma NextPage(ranking: seq<Person>, before: seq<Person>, cap: nat, tail: seq<Person>)
    requires NoRepeats(ranking) && before <= ranking
    requires before + tail <= ranking && |tail| <= cap
    ensures Candidates(before + tail, People(before), cap) == tail
  {
    FreshAppend(before, tail, People(before));
    AllExcluded(before, People(before));
    forall j | 0 <= j < |tail| ensures tail[j] !in People(before) {
      assert before == ranking[..|before|] && tail[j] == ranking[|before| + j];
      TailIsNew(ranking, |before|, |before| + j);
    }
    NoneExcluded(tail, People(before));
    assert Take(tail, cap) == tail;
  }

  lemma NextRunExtends(ranking: seq<Person>, before: seq<Person>, cap: nat)
    requires NoRepeats(ranking) && before <= ranking && |before| <= PAGE_CEILING
    requires |People(before)| == |before|
    ensures before + Selected(ranking, People(before), cap) == Take(ranking, Min(|before| + cap, PAGE_CEILING))
  {
    var k, n := |before|, Min(Min(|before| + cap, PAGE_CEILING), |ranking|);
    var tail := ranking[k..n];
    assert Page(ranking, People(before), cap) == ranking[..n] == before + tail;
    NextPage(ranking, before, cap, tail);
  }
}
