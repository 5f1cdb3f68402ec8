/**
  The accumulation pattern of the task loop: append a value only when the
  accumulated slice does not contain it yet. `Dedup` is the value that
  pattern reaches after a sequence of candidates, and the lemmas below say
  what it means: the same elements, none twice, in first-seen order.
 */
module FirstSeen {
  import opened SwarmTypes

  /** The candidates of `s` with every repetition of an earlier value dropped. */
  function Dedup<T(==)>(s: seq<T>): (d: seq<T>)
    ensures |d| <= |s|
  {
    if |s| == 0 then []
    else
      var d := Dedup(s[..|s| - 1]);
      if s[|s| - 1] in d then d else d + [s[|s| - 1]]
  }

  /** Appending one candidate to the input: kept if new, ignored if already seen. */
  lemma DedupSnoc<T>(s: seq<T>, x: T)
    ensures Dedup(s + [x]) == if x in Dedup(s) then Dedup(s) else Dedup(s) + [x]
  {
  }

  /** A value is in the result exactly when it is among the candidates. */
  lemma {:induction false} DedupMembership<T>(s: seq<T>)
    ensures forall x :: x in Dedup(s) <==> x in s
  {
    if |s| > 0 {
      var p := s[..|s| - 1];
      DedupMembership(p);
      assert s == p + [s[|s| - 1]];
    }
  }

  /** The result never holds the same value twice. */
  lemma {:induction false} DedupNoDuplicates<T>(s: seq<T>)
    ensures NoDuplicates(Dedup(s))
  {
    if |s| > 0 {
      DedupNoDuplicates(s[..|s| - 1]);
    }
  }

  /**
    First-seen order: deduplicating more candidates only extends the result,
    so the values first seen among the earlier candidates keep their places.
   */
  lemma {:induction false} DedupPrefix<T>(s: seq<T>, t: seq<T>)
    ensures Dedup(s) <= Dedup(s + t)
  {
    if |t| > 0 {
      var u := t[..|t| - 1];
      DedupPrefix(s, u);
      assert s + t == (s + u) + [t[|t| - 1]];
      DedupSnoc(s + u, t[|t| - 1]);
    } else {
      assert s + t == s;
    }
  }

  /** Candidates that have all been seen already leave the result unchanged. */
  lemma {:induction false} DedupAbsorbs<T>(s: seq<T>, t: seq<T>)
    requires forall x :: x in t ==> x in s
    ensures Dedup(s + t) == Dedup(s)
  {
    if |t| > 0 {
      var u := t[..|t| - 1];
      DedupAbsorbs(s, u);
      assert s + t == (s + u) + [t[|t| - 1]];
      DedupSnoc(s + u, t[|t| - 1]);
      DedupMembership(s);
    } else {
      assert s + t == s;
    }
  }
}
