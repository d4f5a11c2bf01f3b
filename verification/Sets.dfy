/**
 How the size of a set follows one element entering or leaving it.
 */
module Sets {

  /** A count moved by whether one element had the property before and has it now. */
  function Toggle(n: int, was: bool, now: bool): int {
    if was == now then n else if now then n + 1 else n - 1
  }

  lemma SizeMoves<T>(m: set<T>, u: set<T>, t: T)
    requires u - {t} == m - {t}
    ensures t in m ==> |m| > 0
    ensures |u| == Toggle(|m|, t in m, t in u)
  {
    if t in m { assert m == (m - {t}) + {t}; } else { assert m == m - {t}; }
    if t in u { assert u == (u - {t}) + {t}; } else { assert u == u - {t}; }
  }

  lemma SubsetSize<T>(a: set<T>, b: set<T>)
    requires a <= b
    ensures |a| <= |b| && (|a| == |b| ==> a == b)
  {
    assert a + (b - a) == b;
    assert |b - a| == 0 ==> b - a == {};
  }
}
