/** What every component of the model shares: optional values and the state kinds of a job. */
module Common {
  datatype Option<+T> = None | Some(value: T)

  type byte = x: int | 0 <= x < 256

  /** `Relocating` and `Transferring` are entered only by transfers between workspaces. */
  datatype Kind =
    | Submitted | Ready | Claimed | Running | Committing | Cancelling | Relocating | Transferring
    | Waiting | Paused | Succeeded | Failed | Cancelled

  predicate Terminal(k: Kind) { k == Succeeded || k == Failed || k == Cancelled }

  predicate HexDigit(c: char) { '0' <= c <= '9' || 'a' <= c <= 'f' }

  /** Lower-case hexadecimal in groups of 8, 4, 4, 4 and 12. */
  predicate CanonicalUuid(s: string) {
    |s| == 36 && forall i :: 0 <= i < 36 ==> if i in {8, 13, 18, 23} then s[i] == '-' else HexDigit(s[i])
  }

  lemma {:induction false} SubsetSize<T>(a: set<T>, b: set<T>)
    requires a <= b
    ensures |a| <= |b|
  {
    if a != {} {
      var x :| x in a;
      SubsetSize(a - {x}, b - {x});
    }
  }
}
