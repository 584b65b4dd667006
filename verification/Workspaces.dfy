/** Registration: the search for a free workspace slug. */
module Workspaces {
  import DocumentNumbers

  /** The `k`-th slug tried: the base itself, then base-1, base-2 and so on. */
  function Candidate(slug: string, k: nat): string {
    if k == 0 then slug else slug + "-" + DocumentNumbers.Digits(k)
  }

  /** The first slugs tried. */
  lemma CandidatesAre(slug: string)
    ensures Candidate(slug, 0) == slug && Candidate(slug, 1) == slug + "-1" && Candidate(slug, 12) == slug + "-12"
  {
    assert DocumentNumbers.Digits(1) == "1" && DocumentNumbers.Digits(12) == "12";
  }

  /** Decimal rendering tells numbers apart, so no slug is tried twice. */
  lemma CandidatesDiffer(slug: string, j: nat, k: nat)
    requires j < k
    ensures Candidate(slug, j) != Candidate(slug, k)
  {
    DocumentNumbers.DigitsReadBack(k);
    DocumentNumbers.LastDashBefore(slug, DocumentNumbers.Digits(k));
    if j == 0 {
      assert |Candidate(slug, k)| > |slug|;
    } else {
      DocumentNumbers.DigitsReadBack(j);
      var a, b := Candidate(slug, j), Candidate(slug, k);
      assert a[|slug| + 1..] == DocumentNumbers.Digits(j) && b[|slug| + 1..] == DocumentNumbers.Digits(k);
    }
  }

  /** Whatever slugs are taken, the search ends, and with the first candidate that is free. */
  method FreeSlug(taken: set<string>, slug: string) returns (found: string, ghost k: nat)
    ensures found == Candidate(slug, k) && found !in taken
    ensures forall j | 0 <= j < k :: Candidate(slug, j) in taken
  {
    found, k := slug, 0;
    var counter := 1;
    ghost var tried: set<string> := {};
    while true
      invariant found == Candidate(slug, k) && counter == k + 1
      invariant forall j | 0 <= j < k :: Candidate(slug, j) in taken
      invariant tried <= taken && forall s <- tried :: exists j | 0 <= j < k :: s == Candidate(slug, j)
      decreases taken - tried
    {
      if found !in taken {
        break;
      }
      forall j | 0 <= j < k
        ensures Candidate(slug, j) != found
      {
        CandidatesDiffer(slug, j, k);
      }
      tried := tried + {found};
      found := slug + "-" + DocumentNumbers.Digits(counter);
      k, counter := k + 1, counter + 1;
    }
  }
}
