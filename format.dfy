/**
 * `format!` with plain `{}` placeholders: the template is copied character by character and
 * each `{}` is replaced by the `Display` text of the next argument. The compiler checks that
 * there are as many arguments as placeholders, which `Interpolate` requires.
 */
module Format {

  /** The number of `{}` placeholders in a template, read left to right. */
  function Holes(template: string): nat
    decreases |template|
  {
    if template == [] then 0
    else if |template| >= 2 && template[0] == '{' && template[1] == '}' then 1 + Holes(template[2..])
    else Holes(template[1..])
  }

  function TotalLength(args: seq<string>): nat
  {
    if args == [] then 0 else |args[0]| + TotalLength(args[1..])
  }

  /** The text `format!(template, args...)` produces. */
  function Interpolate(template: string, args: seq<string>): (r: string)
    requires Holes(template) == |args|
    ensures |r| == |template| - 2 * |args| + TotalLength(args)
    decreases |template|
  {
    if template == [] then []
    else if |template| >= 2 && template[0] == '{' && template[1] == '}' then
      args[0] + Interpolate(template[2..], args[1..])
    else [template[0]] + Interpolate(template[1..], args)
  }

  /** Text without braces: copied to the output as it is. */
  predicate Literal(s: string)
  {
    forall i :: 0 <= i < |s| ==> s[i] != '{' && s[i] != '}'
  }

  /** A template that does not end in `{`, so nothing appended can complete a placeholder across the seam. */
  predicate Closed(template: string)
  {
    template == [] || template[|template| - 1] != '{'
  }

  /** Formatting distributes over a seam that no placeholder straddles. */
  lemma {:induction false} InterpolateAppend(x: string, y: string, xs: seq<string>, ys: seq<string>)
    requires Holes(x) == |xs| && Holes(y) == |ys| && Closed(x)
    ensures Holes(x + y) == |xs| + |ys|
    ensures Interpolate(x + y, xs + ys) == Interpolate(x, xs) + Interpolate(y, ys)
    decreases |x|
  {
    if x == [] {
      assert x + y == y && xs + ys == ys;
    } else if |x| >= 2 && x[0] == '{' && x[1] == '}' {
      assert Closed(x[2..]);
      InterpolateAppend(x[2..], y, xs[1..], ys);
      HoleStep(x, y, xs, ys);
    } else {
      assert |x| == 1 ==> x[0] != '{';
      assert Closed(x[1..]);
      InterpolateAppend(x[1..], y, xs, ys);
      CopyStep(x, y, xs, ys);
    }
  }

  /** The step of `InterpolateAppend` for a template that starts with a placeholder. */
  lemma HoleStep(x: string, y: string, xs: seq<string>, ys: seq<string>)
    requires |x| >= 2 && x[0] == '{' && x[1] == '}'
    requires Holes(x) == |xs| && Holes(y) == |ys|
    requires Holes(x[2..] + y) == |xs[1..]| + |ys|
    requires Interpolate(x[2..] + y, xs[1..] + ys) == Interpolate(x[2..], xs[1..]) + Interpolate(y, ys)
    ensures Holes(x + y) == |xs| + |ys|
    ensures Interpolate(x + y, xs + ys) == Interpolate(x, xs) + Interpolate(y, ys)
  {
    DropAppend(x, y, 2);
    DropAppend(xs, ys, 1);
    HoleFront(x, y);
    HoleUnfold(x + y, xs + ys);
    HoleUnfold(x, xs);
    AppendAssoc(xs[0], Interpolate(x[2..], xs[1..]), Interpolate(y, ys));
  }

  /** Appending after a template that starts with a placeholder keeps the placeholder in front. */
  lemma HoleFront(x: string, y: string)
    requires |x| >= 2 && x[0] == '{' && x[1] == '}'
    ensures (x + y)[0] == '{' && (x + y)[1] == '}'
  {
  }

  /** A template that starts with a placeholder substitutes the first argument for it. */
  lemma HoleUnfold(t: string, args: seq<string>)
    requires |t| >= 2 && t[0] == '{' && t[1] == '}'
    ensures Holes(t) == 1 + Holes(t[2..])
    ensures Holes(t) == |args| ==> Interpolate(t, args) == args[0] + Interpolate(t[2..], args[1..])
  {
  }

  /** The step of `InterpolateAppend` for a template that starts with a copied character. */
  lemma CopyStep(x: string, y: string, xs: seq<string>, ys: seq<string>)
    requires |x| >= 1 && !(|x| >= 2 && x[0] == '{' && x[1] == '}') && (|x| == 1 ==> x[0] != '{')
    requires Holes(x) == |xs| && Holes(y) == |ys|
    requires Holes(x[1..] + y) == |xs| + |ys|
    requires Interpolate(x[1..] + y, xs + ys) == Interpolate(x[1..], xs) + Interpolate(y, ys)
    ensures Holes(x + y) == |xs| + |ys|
    ensures Interpolate(x + y, xs + ys) == Interpolate(x, xs) + Interpolate(y, ys)
  {
    DropAppend(x, y, 1);
    SameFront(x, y);
    CopyFront(x + y, xs + ys);
    CopyFront(x, xs);
    AppendAssoc([x[0]], Interpolate(x[1..], xs), Interpolate(y, ys));
  }

  /** Appending after a template that does not start with a placeholder keeps its first character and the fact. */
  lemma SameFront(x: string, y: string)
    requires |x| >= 1 && !(|x| >= 2 && x[0] == '{' && x[1] == '}') && (|x| == 1 ==> x[0] != '{')
    ensures (x + y)[0] == x[0]
    ensures !(|x + y| >= 2 && (x + y)[0] == '{' && (x + y)[1] == '}')
  {
    if |x| >= 2 { assert (x + y)[1] == x[1]; }
  }

  /** Concatenation is associative. */
  lemma AppendAssoc<T>(a: seq<T>, b: seq<T>, c: seq<T>)
    ensures a + (b + c) == a + b + c
  {
  }

  /** A template that does not start with a placeholder copies its first character. */
  lemma CopyFront(t: string, args: seq<string>)
    requires |t| >= 1 && !(|t| >= 2 && t[0] == '{' && t[1] == '}')
    ensures Holes(t) == Holes(t[1..])
    ensures Holes(t) == |args| ==> Interpolate(t, args) == [t[0]] + Interpolate(t[1..], args)
  {
  }

  /** Dropping a prefix of the first part of a concatenation. */
  lemma DropAppend<T>(a: seq<T>, b: seq<T>, k: nat)
    requires k <= |a|
    ensures (a + b)[k..] == a[k..] + b
  {
    forall i | 0 <= i < |a| - k + |b| ensures (a + b)[k..][i] == (a[k..] + b)[i] {
      if i < |a| - k { assert (a + b)[k + i] == a[k + i]; }
    }
  }

  /** A literal run is copied and holds no placeholder. */
  lemma {:induction false} LiteralCopied(lit: string)
    requires Literal(lit)
    ensures Holes(lit) == 0 && Interpolate(lit, []) == lit
    decreases |lit|
  {
    if lit != [] {
      assert Literal(lit[1..]) by {
        forall i | 0 <= i < |lit[1..]| ensures lit[1..][i] == lit[i + 1] { }
      }
      LiteralCopied(lit[1..]);
    }
  }

  /** Appending a placeholder appends the next argument. */
  lemma AppendHole(x: string, xs: seq<string>, arg: string)
    requires Holes(x) == |xs| && Closed(x)
    ensures Holes(x + "{}") == |xs| + 1 && Closed(x + "{}")
    ensures Interpolate(x + "{}", xs + [arg]) == Interpolate(x, xs) + arg
  {
    assert Interpolate("{}", [arg]) == arg + Interpolate([], []);
    InterpolateAppend(x, "{}", xs, [arg]);
  }

  /** Appending a literal run appends it unchanged. */
  lemma AppendLiteral(x: string, xs: seq<string>, lit: string)
    requires Holes(x) == |xs| && Closed(x) && Literal(lit)
    ensures Holes(x + lit) == |xs| && Closed(x + lit)
    ensures Interpolate(x + lit, xs) == Interpolate(x, xs) + lit
  {
    LiteralCopied(lit);
    InterpolateAppend(x, lit, xs, []);
    assert xs + [] == xs;
  }

  /** Appending a placeholder and a literal run appends the next argument and the run. */
  lemma AppendHoleLiteral(x: string, xs: seq<string>, arg: string, lit: string)
    requires Holes(x) == |xs| && Closed(x) && Literal(lit)
    ensures Holes(x + "{}" + lit) == |xs| + 1 && Closed(x + "{}" + lit)
    ensures Interpolate(x + "{}" + lit, xs + [arg]) == Interpolate(x, xs) + arg + lit
  {
    AppendHole(x, xs, arg);
    AppendLiteral(x + "{}", xs + [arg], lit);
  }

  /** `l0 {} l1 {} l2`. */
  lemma InterpolateTwo(l0: string, l1: string, l2: string, a0: string, a1: string)
    requires Literal(l0) && Literal(l1) && Literal(l2)
    ensures Holes(l0 + "{}" + l1 + "{}" + l2) == 2 && Closed(l0 + "{}" + l1 + "{}" + l2)
    ensures Interpolate(l0 + "{}" + l1 + "{}" + l2, [a0, a1]) == l0 + a0 + l1 + a1 + l2
  {
    LiteralCopied(l0);
    AppendHoleLiteral(l0, [], a0, l1);
    AppendHoleLiteral(l0 + "{}" + l1, [a0], a1, l2);
    assert [] + [a0] == [a0] && [a0] + [a1] == [a0, a1];
  }

  /** `l0 {} l1 {} l2 {} l3`. */
  lemma InterpolateThree(l0: string, l1: string, l2: string, l3: string, a0: string, a1: string, a2: string)
    requires Literal(l0) && Literal(l1) && Literal(l2) && Literal(l3)
    ensures Holes(l0 + "{}" + l1 + "{}" + l2 + "{}" + l3) == 3
    ensures Closed(l0 + "{}" + l1 + "{}" + l2 + "{}" + l3)
    ensures Interpolate(l0 + "{}" + l1 + "{}" + l2 + "{}" + l3, [a0, a1, a2])
         == l0 + a0 + l1 + a1 + l2 + a2 + l3
  {
    InterpolateTwo(l0, l1, l2, a0, a1);
    AppendHoleLiteral(l0 + "{}" + l1 + "{}" + l2, [a0, a1], a2, l3);
    assert [a0, a1] + [a2] == [a0, a1, a2];
  }

  /** `l0 {} l1 {} l2 {} l3 {} l4`. */
  lemma InterpolateFour(l0: string, l1: string, l2: string, l3: string, l4: string,
                        a0: string, a1: string, a2: string, a3: string)
    requires Literal(l0) && Literal(l1) && Literal(l2) && Literal(l3) && Literal(l4)
    ensures Holes(l0 + "{}" + l1 + "{}" + l2 + "{}" + l3 + "{}" + l4) == 4
    ensures Interpolate(l0 + "{}" + l1 + "{}" + l2 + "{}" + l3 + "{}" + l4, [a0, a1, a2, a3])
         == l0 + a0 + l1 + a1 + l2 + a2 + l3 + a3 + l4
  {
    InterpolateThree(l0, l1, l2, l3, a0, a1, a2);
    FourthHole(l0 + "{}" + l1 + "{}" + l2 + "{}" + l3, l0 + a0 + l1 + a1 + l2 + a2 + l3, a0, a1, a2, a3, l4);
  }

  lemma FourthHole(t: string, out: string, a0: string, a1: string, a2: string, a3: string, lit: string)
    requires Literal(lit) && Closed(t) && Holes(t) == 3 && Interpolate(t, [a0, a1, a2]) == out
    ensures Holes(t + "{}" + lit) == 4
    ensures Interpolate(t + "{}" + lit, [a0, a1, a2, a3]) == out + a3 + lit
  {
    AppendHoleLiteral(t, [a0, a1, a2], a3, lit);
    assert [a0, a1, a2] + [a3] == [a0, a1, a2, a3];
  }
}
