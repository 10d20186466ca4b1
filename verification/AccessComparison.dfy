/**
 When the comparison of access policies is an order. It switches between numeric and textual
 comparison pair by pair, so it is transitive on some values and not on others.
 */
module AccessComparison {
  import opened AccessPolicies
  import opened Options
  import Text

  // ---------------------------------------------------------------- texts and numbers by themselves

  lemma {:induction false} TextOrder(a: string, b: string)
    ensures (TextLess(a, b) || TextLess(b, a)) == (a != b) && !(TextLess(a, b) && TextLess(b, a))
  {
    if a != [] && b != [] && a[0] == b[0] {
      TextOrder(a[1..], b[1..]);
      assert a == [a[0]] + a[1..] && b == [b[0]] + b[1..];
    }
  }

  lemma {:induction false} TextsChain(a: string, b: string, c: string)
    requires TextLess(a, b) && TextLess(b, c)
    ensures TextLess(a, c)
  {
    if a != [] && a[0] == b[0] == c[0] {
      TextsChain(a[1..], b[1..], c[1..]);
    }
  }

  /** Three outcomes that fit one weak order of three things. */
  predicate Consistent(ab: int, bc: int, ac: int) {
    && (ab <= 0 && bc <= 0 ==> ac <= 0 && (ab < 0 || bc < 0 ==> ac < 0))
    && (ab >= 0 && bc >= 0 ==> ac >= 0 && (ab > 0 || bc > 0 ==> ac > 0))
  }

  lemma TextsConsistent(a: string, b: string, c: string)
    ensures Consistent(CompareTexts(a, b), CompareTexts(b, c), CompareTexts(a, c))
  {
    TextOrder(a, b);
    TextOrder(b, c);
    TextOrder(a, c);
    if TextLess(a, b) && TextLess(b, c) {
      TextsChain(a, b, c);
    } else if TextLess(c, b) && TextLess(b, a) {
      TextsChain(c, b, a);
    }
  }

  /** Numbers are in order, except that not-a-number equals every number: then the others must be equal too. */
  lemma NumbersConsistent(x: Number, y: Number, z: Number)
    ensures Consistent(CompareNumbers(x, y), CompareNumbers(y, z), CompareNumbers(x, z))
            <==> (x.NotANumber? || y.NotANumber? || z.NotANumber? ==>
                    CompareNumbers(x, y) == CompareNumbers(y, z) == CompareNumbers(x, z) == 0)
  {
  }

  // ---------------------------------------------------------------- three values

  /** Swapping the sides swaps the outcome, so "gt" and "lt" mirror each other for any two values. */
  lemma CompareMirrors(ctx: Context, left: Value, right: Value)
    ensures Compare(ctx, left, right) == -Compare(ctx, right, left)
  {
    TextOrder(Printed(ctx, left), Printed(ctx, right));
  }

  function Comparison(ctx: Context): (Value, Value) -> int {
    (left, right) => Compare(ctx, left, right)
  }

  predicate Chains<T>(compare: (T, T) -> int, a: T, b: T, c: T) {
    compare(a, b) <= 0 && compare(b, c) <= 0 ==> compare(a, c) <= 0
  }

  /** Transitivity on three things in whatever order they are taken. */
  predicate Transitive<T>(compare: (T, T) -> int, a: T, b: T, c: T) {
    && Chains(compare, a, b, c) && Chains(compare, a, c, b) && Chains(compare, b, a, c)
    && Chains(compare, b, c, a) && Chains(compare, c, a, b) && Chains(compare, c, b, a)
  }

  /** Three numbers agree unless one of them is not a number and two others differ. */
  predicate NumbersFit(ctx: Context, a: Value, b: Value, c: Value) {
    var x, y, z := AsNumber(ctx, a), AsNumber(ctx, b), AsNumber(ctx, c);
    x.Some? && y.Some? && z.Some? && (x.value.NotANumber? || y.value.NotANumber? || z.value.NotANumber?) ==>
      CompareNumbers(x.value, y.value) == CompareNumbers(y.value, z.value) == CompareNumbers(x.value, z.value) == 0
  }

  /** In the order of texts t lies above both or below both. */
  predicate Outside(x: string, y: string, t: string) {
    (TextLess(x, t) && TextLess(y, t)) || (TextLess(t, x) && TextLess(t, y))
  }

  /** Two numbers and a text agree unless the text lies between their prints and these are not in numeric order. */
  predicate MixFits(ctx: Context, a: Value, b: Value, t: Value) {
    var x, y := AsNumber(ctx, a), AsNumber(ctx, b);
    x.Some? && y.Some? && AsNumber(ctx, t).None? ==>
      Outside(Printed(ctx, a), Printed(ctx, b), Printed(ctx, t))
      || CompareNumbers(x.value, y.value) == CompareTexts(Printed(ctx, a), Printed(ctx, b))
  }

  predicate Fit(ctx: Context, a: Value, b: Value, c: Value) {
    NumbersFit(ctx, a, b, c) && MixFits(ctx, a, b, c) && MixFits(ctx, a, c, b) && MixFits(ctx, b, c, a)
  }

  lemma TransitiveIfConsistent<T>(compare: (T, T) -> int, a: T, b: T, c: T)
    requires compare(b, a) == -compare(a, b) && compare(c, b) == -compare(b, c) && compare(c, a) == -compare(a, c)
    ensures Transitive(compare, a, b, c) <==> Consistent(compare(a, b), compare(b, c), compare(a, c))
  {
  }

  lemma ComparisonConsistent(ctx: Context, a: Value, b: Value, c: Value)
    ensures Transitive(Comparison(ctx), a, b, c)
            <==> Consistent(Compare(ctx, a, b), Compare(ctx, b, c), Compare(ctx, a, c))
  {
    CompareMirrors(ctx, a, b);
    CompareMirrors(ctx, b, c);
    CompareMirrors(ctx, a, c);
    TransitiveIfConsistent(Comparison(ctx), a, b, c);
  }

  lemma MixConsistent(ctx: Context, a: Value, b: Value, t: Value)
    requires AsNumber(ctx, a).Some? && AsNumber(ctx, b).Some? && AsNumber(ctx, t).None?
    ensures Transitive(Comparison(ctx), a, b, t) <==> MixFits(ctx, a, b, t)
  {
    var x, y, z := Printed(ctx, a), Printed(ctx, b), Printed(ctx, t);
    ComparisonConsistent(ctx, a, b, t);
    TextsConsistent(x, z, y);
    TextOrder(x, y);
    TextOrder(x, z);
    TextOrder(y, z);
  }

  /** Comparison is transitive on three values exactly when they fit: a complete account of where it is an order. */
  lemma TransitiveIffFit(ctx: Context, a: Value, b: Value, c: Value)
    ensures Transitive(Comparison(ctx), a, b, c) <==> Fit(ctx, a, b, c)
  {
    var x, y, z := AsNumber(ctx, a), AsNumber(ctx, b), AsNumber(ctx, c);
    if x.Some? && y.Some? && z.Some? {
      ComparisonConsistent(ctx, a, b, c);
      NumbersConsistent(x.value, y.value, z.value);
    } else if x.Some? && y.Some? {
      MixConsistent(ctx, a, b, c);
    } else if x.Some? && z.Some? {
      MixConsistent(ctx, a, c, b);
    } else if y.Some? && z.Some? {
      MixConsistent(ctx, b, c, a);
    } else {
      ComparisonConsistent(ctx, a, b, c);
      var p, q, r := Printed(ctx, a), Printed(ctx, b), Printed(ctx, c);
      TextsConsistent(p, q, r);
    }
  }

  /** The value reads as a proper number. */
  predicate Plain(ctx: Context, v: Value) {
    AsNumber(ctx, v).Some? && !AsNumber(ctx, v).value.NotANumber?
  }

  /** In particular it is transitive on proper numbers, and on values of which at most one reads as a number. */
  lemma OrderOnNumbersAndOnTexts(ctx: Context, values: set<Value>)
    requires (forall v :: v in values ==> Plain(ctx, v))
             || (forall v, w :: v in values && w in values && AsNumber(ctx, v).Some? && AsNumber(ctx, w).Some? ==>
                 v == w)
    ensures forall a, b, c :: a in values && b in values && c in values ==> Chains(Comparison(ctx), a, b, c)
  {
    forall a, b, c | a in values && b in values && c in values
      ensures Chains(Comparison(ctx), a, b, c)
    {
      TransitiveIffFit(ctx, a, b, c);
      CompareMirrors(ctx, a, a);
    }
  }

  /** A witness of the mixed case: texts that read as numbers and a text that does not, in a cycle. */
  lemma CompareCycles(ctx: Context)
    requires ctx.parse("9") == Some(Finite(9.0)) && ctx.parse("10") == Some(Finite(10.0)) && ctx.parse("1a") == None
    ensures Compare(ctx, Str("9"), Str("10")) == Compare(ctx, Str("10"), Str("1a"))
            == Compare(ctx, Str("1a"), Str("9")) == -1
    ensures !Fit(ctx, Str("9"), Str("10"), Str("1a"))
  {
    assert Text.Trim("9") == "9" && Text.Trim("10") == "10" && Text.Trim("1a") == "1a" by {
      assert "10"[1] == '0' && "1a"[1] == 'a';
      Text.TrimShape("9");
      Text.TrimShape("10");
      Text.TrimShape("1a");
    }
    assert "10"[1..] == "0" && "1a"[1..] == "a";
    TransitiveIffFit(ctx, Str("9"), Str("10"), Str("1a"));
  }

  /** And one of the other case: not-a-number equals both one and two. */
  lemma NotANumberEqualsAll(ctx: Context, x: Number)
    requires x.Finite? || x.NegativeInfinity? || x.PositiveInfinity?
    ensures Compare(ctx, Num(NotANumber), Num(x)) == 0
    ensures !Fit(ctx, Num(Finite(1.0)), Num(NotANumber), Num(Finite(2.0)))
  {
  }
}
