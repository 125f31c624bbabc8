/** The search order of `re.search`: start positions are tried from left to
    right and the first one where the pattern matches decides the result. */
module Search {
  import opened Options

  /** Try `attempt` at the positions `i`, `i + 1`, ..., `n` and return the first
      success. */
  function Leftmost<T>(attempt: nat -> Option<T>, i: nat, n: nat): Option<T>
    requires i <= n
    decreases n - i
  {
    if attempt(i).Some? then
      attempt(i)
    else if i == n then
      None
    else
      Leftmost(attempt, i + 1, n)
  }

  /** The search fails exactly when every attempt in range fails, and otherwise
      returns the attempt at a position before which every attempt failed. */
  lemma {:induction false} LeftmostSpec<T>(attempt: nat -> Option<T>, i: nat, n: nat)
    requires i <= n
    ensures Leftmost(attempt, i, n).None? <==> forall m: nat :: i <= m <= n ==> attempt(m).None?
    ensures Leftmost(attempt, i, n).Some? ==>
              exists m: nat :: i <= m <= n && Leftmost(attempt, i, n) == attempt(m)
                               && forall m': nat :: i <= m' < m ==> attempt(m').None?
    decreases n - i
  {
    if attempt(i).None? && i < n {
      LeftmostSpec(attempt, i + 1, n);
    }
  }

  /** The position at which the search succeeded. */
  lemma LeftmostFound<T>(attempt: nat -> Option<T>, i: nat, n: nat) returns (m: nat)
    requires i <= n && Leftmost(attempt, i, n).Some?
    ensures i <= m <= n && Leftmost(attempt, i, n) == attempt(m)
    ensures forall m': nat :: i <= m' < m ==> attempt(m').None?
  {
    LeftmostSpec(attempt, i, n);
    m :| i <= m <= n && Leftmost(attempt, i, n) == attempt(m) && forall m': nat :: i <= m' < m ==> attempt(m').None?;
  }

  /** When exactly one attempt in range succeeds, the search returns it. */
  lemma LeftmostOnly<T>(attempt: nat -> Option<T>, i: nat, n: nat, m: nat)
    requires i <= m <= n && attempt(m).Some?
    requires forall m': nat :: i <= m' <= n && m' != m ==> attempt(m').None?
    ensures Leftmost(attempt, i, n) == attempt(m)
  {
    LeftmostSpec(attempt, i, n);
    var k := LeftmostFound(attempt, i, n);
  }

}
