/**
 * Placeholder names for bound values. The builder draws a random hex token
 * for every WHERE placeholder; the model draws the next number of a counter
 * instead, so that distinct draws give distinct names by construction.
 */
module Placeholders {
  import opened Text

  const UpdateBinder := ":update_"
  const WhereBinder := ":where_"
  const ValueBinder := ":value_"

  /** The token of the n-th draw. */
  function Token(n: nat): string
  {
    NatToString(n)
  }

  /** self::WHERE_BINDER . <token> . "_" . <suffix>, where the suffix is the
      column, possibly followed by "_" and an index. */
  function WherePlaceholder(n: nat, suffix: string): string
  {
    WhereBinder + Token(n) + "_" + suffix
  }

  /** The draw number a WHERE placeholder carries, or -1 for any other key. */
  function WhereToken(key: string): int
  {
    if |key| >= |WhereBinder| && key[..|WhereBinder|] == WhereBinder then
      var d := DigitPrefix(key[|WhereBinder|..]);
      if d == [] then -1 else DigitsValue(d)
    else -1
  }

  /** A WHERE placeholder can be read back to the draw that made it, whatever
      the column: placeholders of distinct draws never collide. */
  lemma WhereTokenOfPlaceholder(n: nat, suffix: string)
    ensures WhereToken(WherePlaceholder(n, suffix)) == n
  {
    var key := WherePlaceholder(n, suffix);
    assert key[..|WhereBinder|] == WhereBinder;
    assert key[|WhereBinder|..] == Token(n) + ("_" + suffix);
    DigitPrefixStops(Token(n), "_" + suffix);
    DigitsValueOfNatToString(n);
  }

  lemma PlaceholdersDistinct(n: nat, s: string, m: nat, t: string)
    requires n != m
    ensures WherePlaceholder(n, s) != WherePlaceholder(m, t)
  {
    WhereTokenOfPlaceholder(n, s);
    WhereTokenOfPlaceholder(m, t);
  }

  /** The keys INSERT rendering binds are never WHERE placeholders. */
  lemma OtherBindersAreNotWhereKeys(rest: string)
    ensures WhereToken(ValueBinder + rest) == -1
    ensures WhereToken(UpdateBinder + rest) == -1
  {
    assert (ValueBinder + rest)[1] == 'v';
    assert (UpdateBinder + rest)[1] == 'u';
  }

  /** The supply of fresh tokens (randomPlaceholder). A nested builder shares
      the supply of the builder that created it. */
  class Supply {
    var next: nat

    constructor ()
      ensures next == 0
    {
      next := 0;
    }

    method Fresh() returns (token: string)
      modifies this`next
      ensures next == old(next) + 1
      ensures token == Token(old(next))
    {
      token := Token(next);
      next := next + 1;
    }
  }
}
