/** The bounded recorder of unresolved findings (tools/repo_graph.py, UnresolvedNotes). */
module UnresolvedFindings {
  import opened RepoTree

  /** A finding, or the marker that tells how many were cut. */
  datatype Finding = Found(note: Note) | Truncated(count: nat, cap: nat)

  function FoundAll(notes: seq<Note>): seq<Finding> {
    seq(|notes|, i requires 0 <= i < |notes| => Found(notes[i]))
  }

  /** The list that is published for some findings. */
  function Published(notes: seq<Note>, cap: nat): seq<Finding> {
    if |notes| <= cap then FoundAll(notes) else FoundAll(notes[..cap]) + [Truncated(|notes| - cap, cap)]
  }

  class UnresolvedNotes {
    const cap: nat
    var kept: seq<Finding>
    var dropped: nat
    /** Everything noted so far. */
    ghost var noted: seq<Note>

    constructor (cap: nat)
      ensures this.cap == cap && Valid() && noted == []
    {
      this.cap := cap;
      kept, dropped, noted := [], 0, [];
    }

    /** The first findings are kept, the rest counted. */
    ghost predicate Valid()
      reads this
    {
      && |kept| + dropped == |noted| && |kept| <= cap && (dropped > 0 ==> |kept| == cap)
      && kept == FoundAll(noted[..|kept|])
    }

    method Note(n: Note)
      requires Valid()
      modifies this
      ensures Valid() && noted == old(noted) + [n]
    {
      noted := noted + [n];
      if |kept| < cap {
        kept := kept + [Found(n)];
      } else {
        dropped := dropped + 1;
      }
    }

    /** `record`: the marker follows whenever something was cut. */
    method Record() returns (findings: seq<Finding>)
      requires Valid()
      modifies this
      ensures findings == kept == Published(old(noted), cap)
      ensures noted == old(noted) && dropped == old(dropped)
    {
      assert |kept| == |noted| ==> noted[..|kept|] == noted;
      if dropped > 0 {
        kept := kept + [Truncated(dropped, cap)];
      }
      findings := kept;
    }
  }

  /** Two recorders publish the same list exactly if they noted the same findings, as far as
      the cap lets them show: below the cap nothing is hidden. */
  lemma BelowTheCapNothingIsHidden(a: seq<Note>, b: seq<Note>, cap: nat)
    ensures Published(a, cap) == Published(b, cap)
            <==> |a| == |b| && (if |a| <= cap then a == b else a[..cap] == b[..cap])
  {
    var x, y := Published(a, cap), Published(b, cap);
    if x == y {
      forall i | 0 <= i < |a| && i < |b| && i < cap ensures a[i] == b[i] {
        assert x[i] == Found(a[i]) && y[i] == Found(b[i]);
      }
      if |a| > cap || |b| > cap {
        assert |x| > cap && x[cap].Truncated? && y[cap].Truncated?;
      }
    }
  }
}
