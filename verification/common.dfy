/** Values shared by the models: optional columns, and the error kinds the application distinguishes. */
module Common {
  datatype Option<+T> = None | Some(value: T)

  datatype Error = Validation | NotFound | Conflict | Internal

  datatype Result<+T> = Ok(value: T) | Err(error: Error)

  /** The two database backends; they differ in how a transaction sees and excludes others. */
  datatype Backend = Postgres | Sqlite

  type Id = nat

  const I32_MAX: int := 0x7FFF_FFFF
  const I32_MIN: int := -0x8000_0000
  const I64_MAX: int := 0x7FFF_FFFF_FFFF_FFFF

  /** Taking the element at `k` out of a sequence takes one occurrence out of its multiset. */
  lemma {:induction false} WithoutOne<T>(s: seq<T>, k: nat)
    requires k < |s|
    ensures multiset(s[..k] + s[k + 1..]) == multiset(s) - multiset{s[k]}
  {
    assert s == s[..k] + [s[k]] + s[k + 1..];
  }

  lemma {:induction false} FindIn<T>(s: seq<T>, x: T) returns (k: nat)
    requires x in multiset(s)
    ensures k < |s| && s[k] == x
  {
    k :| 0 <= k < |s| && s[k] == x;
  }
}
