// When cache keys tell tiles apart: the layout of a key, and reading the coordinates back.

module KeySeparation {
  import opened Quadtree
  import opened Template
  import opened CacheKeys

  // A coordinate and the text after it, up to the next one.
  datatype Field = Field(coordinate: string, gap: string)

  datatype Layout = Layout(head: string, fields: seq<Field>)

  function LayoutOf(s: string): (l: Layout)
    ensures forall f <- l.fields :: f.coordinate in XYZ
  {
    if s == "" then Layout("", [])
    else if StartsToken(s) && TokenName(s) in XYZ then
      var l := LayoutOf(s[|TokenName(s)| + 2..]);
      Layout("", [Field(TokenName(s), l.head)] + l.fields)
    else
      var l := LayoutOf(s[1..]);
      Layout([s[0]] + l.head, l.fields)
  }

  function Print(t: Tile, fields: seq<Field>): string
    requires forall f <- fields :: f.coordinate in XYZ
  {
    if fields == [] then "" else
      Coordinates(t)[fields[0].coordinate] + fields[0].gap + Print(t, fields[1..])
  }

  lemma {:induction false} InjectStringPrints(t: Tile, s: string)
    ensures Substitute(s, Coordinates(t)) == LayoutOf(s).head + Print(t, LayoutOf(s).fields)
  {
    hide Itoa;
    if s != "" {
      if StartsToken(s) && TokenName(s) in XYZ {
        var rest := s[|TokenName(s)| + 2..];
        InjectStringPrints(t, rest);
        var l := LayoutOf(rest);
        assert ([Field(TokenName(s), l.head)] + l.fields)[1..] == l.fields;
      } else {
        InjectStringPrints(t, s[1..]);
      }
    }
  }

  // Between two coordinates there is something other than digits.
  predicate Separating(fields: seq<Field>) {
    forall i :: 0 <= i < |fields| - 1 ==> !AllDigits(fields[i].gap)
  }

  // Where a numeral ends is determined by the text after it, once that is known to leave digits.
  lemma NumeralEnds(u: string, v: string, gap: string, a: string, b: string)
    requires IsNumeral(u) && IsNumeral(v) && !AllDigits(gap) && u + gap + a == v + gap + b
    ensures |u| <= |v|
  {
    assert |v| >= 1;
    hide IsNumeral;
    var k := FirstNonDigit(gap);
    assert (v + gap + b)[|v| + k] == gap[k];
    if |u| > |v| {
      DigitAt(u, gap, a, k, |v| + k);
    }
  }

  lemma DigitAt(u: string, gap: string, a: string, k: nat, i: nat)
    requires IsNumeral(u) && k < |gap| && (forall j :: 0 <= j < k ==> IsDigit(gap[j])) && 1 <= i < |u| + k
    ensures IsDigit((u + gap + a)[i])
  {
    if i < |u| {
      assert u[1..][i - 1] in u[1..];
    } else {
      assert (u + gap + a)[i] == gap[i - |u|];
    }
  }

  lemma FirstNonDigit(gap: string) returns (k: nat)
    requires !AllDigits(gap)
    ensures k < |gap| && !IsDigit(gap[k]) && forall j :: 0 <= j < k ==> IsDigit(gap[j])
  {
    k := 0;
    assert gap[0..] == gap;
    while IsDigit(gap[k])
      invariant k < |gap| && !AllDigits(gap[k..]) && forall j :: 0 <= j < k ==> IsDigit(gap[j])
      decreases |gap| - k
    {
      assert gap[k..] == [gap[k]] + gap[k + 1..];
      k := k + 1;
    }
  }

  lemma SplitEqual(a: string, b: string, c: string, d: string)
    requires a + b == c + d && |a| == |c|
    ensures a == c && b == d
  {
    assert a == (a + b)[..|a|] && c == (c + d)[..|c|];
    assert b == (a + b)[|a|..] && d == (c + d)[|c|..];
  }

  // Separated coordinates can be read back.
  lemma {:induction false} PrintIsInjective(t: Tile, u: Tile, fields: seq<Field>)
    requires (forall f <- fields :: f.coordinate in XYZ) && Separating(fields) && Print(t, fields) == Print(u, fields)
    ensures forall f <- fields :: Coordinates(t)[f.coordinate] == Coordinates(u)[f.coordinate]
  {
    hide Itoa, IsNumeral, AllDigits;
    if fields != [] {
      var (a, b) := (Coordinates(t)[fields[0].coordinate], Coordinates(u)[fields[0].coordinate]);
      var (gap, p, q) := (fields[0].gap, Print(t, fields[1..]), Print(u, fields[1..]));
      assert IsNumeral(a) && IsNumeral(b);
      if |fields| > 1 {
        NumeralEnds(a, b, gap, p, q);
        NumeralEnds(b, a, gap, q, p);
      } else {
        assert |a| == |b|;
      }
      SplitEqual(a + gap, p, b + gap, q);
      SplitEqual(a, gap, b, gap);
      assert Separating(fields[1..]);
      PrintIsInjective(t, u, fields[1..]);
    }
  }

  // Every coordinate occurs.
  predicate Covers(fields: seq<Field>) {
    forall n <- XYZ :: exists f <- fields :: f.coordinate == n
  }

  lemma SameCoordinates(t: Tile, u: Tile)
    requires forall n <- XYZ :: Coordinates(t)[n] == Coordinates(u)[n]
    ensures t == u
  {
    assert "x" in XYZ && "y" in XYZ && "z" in XYZ;
    ItoaIsInjective(t.x, u.x);
    ItoaIsInjective(t.y, u.y);
    ItoaIsInjective(t.zoom, u.zoom);
  }

  lemma SeparatingIsInjective(fields: seq<Field>, t: Tile, u: Tile)
    requires (forall f <- fields :: f.coordinate in XYZ) && Separating(fields) && Covers(fields)
    requires Print(t, fields) == Print(u, fields)
    ensures t == u
  {
    hide Separating, Itoa, Print;
    PrintIsInjective(t, u, fields);
    SameCoordinates(t, u);
  }

  // ---- A gap of digits does not separate ----------------------------------------------------

  function Pow10(k: nat): nat {
    if k == 0 then 1 else 10 * Pow10(k - 1)
  }

  lemma {:induction false} ValueBounds(s: string)
    requires AllDigits(s)
    ensures Value(s) < Pow10(|s|)
    ensures s != "" && s[0] != '0' ==> Value(s) > 0
  {
    if s != "" {
      assert s[|s| - 1] in s && s[0] in s;
      ValueBounds(s[..|s| - 1]);
    }
  }

  // Digits without a leading zero are what Itoa prints.
  lemma {:induction false} DigitsOfValue(s: string)
    requires AllDigits(s) && s != "" && s[0] != '0'
    ensures Digits(Value(s)) == s
  {
    var (front, last) := (s[..|s| - 1], s[|s| - 1]);
    assert last in s && s == front + [last];
    if front == "" {
      assert Value(front) == 0;
    } else {
      DigitsOfValue(front);
      ValueBounds(front);
    }
  }

  // The tile whose coordinates c and d are a and b; the third is 0.
  function TileWith(c: string, a: int64, d: string, b: int64): Tile {
    var at := (n: string) => if n == c then a else if n == d then b else 0;
    Tile(at("x"), at("y"), at("z"))
  }

  lemma CoordinatesOfTileWith(c: string, a: int64, d: string, b: int64, n: string)
    requires n in XYZ
    ensures Coordinates(TileWith(c, a, d, b))[n] == Itoa(if n == c then a else if n == d then b else 0)
  {
    assert n == "x" || n == "y" || n == "z";
  }

  // 1 gap (1 gap 1) reads the same as (1 gap 1) gap 1.
  lemma GapNumber(gap: string) returns (n: int64)
    requires AllDigits(gap) && |gap| <= 16
    ensures n > 1 && Itoa(1) + gap + Itoa(n) == Itoa(n) + gap + Itoa(1)
  {
    var s := "1" + gap + "1";
    assert AllDigits(s);
    ValueBounds(s);
    Pow10Mono(|s|, 18);
    assert Pow10(18) == 1_000_000_000_000_000_000 by { assert Pow10(9) == 1_000_000_000; }
    DigitsOfValue(s);
    assert Value(s) != 1 by { assert Digits(1) == "1"; }
    n := Value(s);
    assert Itoa(1) == "1" && Itoa(n) == s;
    assert "1" + gap + ("1" + gap + "1") == ("1" + gap + "1") + gap + "1";
  }

  lemma Pow10Mono(a: nat, b: nat)
    requires a <= b
    ensures Pow10(a) <= Pow10(b)
  {
    if a < b { Pow10Mono(a, b - 1); }
  }

  // Each coordinate exactly once.
  predicate OneEach(fields: seq<Field>) {
    && |fields| == 3 && (forall f <- fields :: f.coordinate in XYZ)
    && fields[0].coordinate != fields[1].coordinate
    && fields[0].coordinate != fields[2].coordinate
    && fields[1].coordinate != fields[2].coordinate
  }

  lemma PrintThree(t: Tile, fields: seq<Field>)
    requires OneEach(fields)
    ensures var c := Coordinates(t);
            Print(t, fields) == c[fields[0].coordinate] + (fields[0].gap +
              (c[fields[1].coordinate] + (fields[1].gap + (c[fields[2].coordinate] + fields[2].gap))))
  {
    hide Itoa;
    var c := Coordinates(t);
    assert fields[1..][1..] == fields[2..] && fields[2..][1..] == [];
    assert Print(t, fields[2..]) == c[fields[2].coordinate] + fields[2].gap;
    ConcatAssociates(c[fields[1].coordinate], fields[1].gap, Print(t, fields[2..]));
    ConcatAssociates(c[fields[0].coordinate], fields[0].gap, Print(t, fields[1..]));
  }

  // A gap of digits alone is short enough for the colliding coordinate to fit 64 bits.
  predicate ShortDigitGaps(fields: seq<Field>) {
    forall i :: 0 <= i < |fields| - 1 && AllDigits(fields[i].gap) ==> |fields[i].gap| <= 16
  }

  lemma Collision(fields: seq<Field>) returns (t: Tile, u: Tile)
    requires OneEach(fields) && !Separating(fields) && ShortDigitGaps(fields)
    ensures t != u && Print(t, fields) == Print(u, fields)
  {
    var i :| 0 <= i < |fields| - 1 && AllDigits(fields[i].gap);
    assert fields[i] in fields && fields[i + 1] in fields;
    var (c, d) := (fields[i].coordinate, fields[i + 1].coordinate);
    var n := GapNumber(fields[i].gap);
    t, u := TileWith(c, 1, d, n), TileWith(c, n, d, 1);
    CollisionAt(fields, i, n);
    CoordinatesOfTileWith(c, 1, d, n, c);
    CoordinatesOfTileWith(c, n, d, 1, c);
    assert t != u by {
      hide Itoa, TileWith, AllDigits;
      if t == u { ItoaIsInjective(1, n); }
    }
  }

  lemma CollisionAt(fields: seq<Field>, i: nat, n: int64)
    requires OneEach(fields) && i < 2
    requires var gap := fields[i].gap; Itoa(1) + gap + Itoa(n) == Itoa(n) + gap + Itoa(1)
    ensures var (c, d) := (fields[i].coordinate, fields[i + 1].coordinate);
            Print(TileWith(c, 1, d, n), fields) == Print(TileWith(c, n, d, 1), fields)
  {
    hide Itoa, AllDigits, TileWith, Print, Coordinates;
    var (c, d, gap) := (fields[i].coordinate, fields[i + 1].coordinate, fields[i].gap);
    var (t, u) := (TileWith(c, 1, d, n), TileWith(c, n, d, 1));
    forall f <- fields
      ensures Coordinates(t)[f.coordinate] == Itoa(if f.coordinate == c then 1 else if f.coordinate == d then n else 0)
      ensures Coordinates(u)[f.coordinate] == Itoa(if f.coordinate == c then n else if f.coordinate == d then 1 else 0)
    {
      CoordinatesOfTileWith(c, 1, d, n, f.coordinate);
      CoordinatesOfTileWith(c, n, d, 1, f.coordinate);
    }
    assert fields[0] in fields && fields[1] in fields && fields[2] in fields;
    PrintThree(t, fields);
    PrintThree(u, fields);
    if i == 0 {
      SwapFirst(Itoa(1), gap, Itoa(n), fields[1].gap + (Itoa(0) + fields[2].gap));
    } else {
      SwapFirst(Itoa(1), gap, Itoa(n), fields[2].gap);
    }
  }

  lemma SwapFirst(one: string, gap: string, many: string, rest: string)
    requires one + gap + many == many + gap + one
    ensures one + (gap + (many + rest)) == many + (gap + (one + rest))
  {
    assert one + (gap + (many + rest)) == (one + gap + many) + rest;
    assert many + (gap + (one + rest)) == (many + gap + one) + rest;
  }

  // Printed with one field for each coordinate, distinct tiles differ exactly when neither gap
  // consists of digits alone.
  lemma PrintsDifferIff(fields: seq<Field>)
    requires OneEach(fields) && ShortDigitGaps(fields)
    ensures (forall t, u :: Print(t, fields) == Print(u, fields) ==> t == u) <==> Separating(fields)
  {
    hide Itoa, Print, Separating, ShortDigitGaps;
    if Separating(fields) {
      OneEachCovers(fields);
      forall t, u | Print(t, fields) == Print(u, fields) ensures t == u { SeparatingIsInjective(fields, t, u); }
    } else {
      var t, u := Collision(fields);
    }
  }

  // A template that names each coordinate once gives distinct tiles distinct strings exactly when
  // neither gap between the coordinates consists of digits alone.
  lemma SeparatesIff(s: string)
    requires OneEach(LayoutOf(s).fields) && ShortDigitGaps(LayoutOf(s).fields)
    ensures (forall t, u :: InjectString(t, s) == InjectString(u, s) ==> t == u) <==> Separating(LayoutOf(s).fields)
  {
    hide Itoa, InjectString, LayoutOf, Print, Separating, ShortDigitGaps, OneEach;
    var l := LayoutOf(s);
    PrintsDifferIff(l.fields);
    if Separating(l.fields) {
      forall t, u | InjectString(t, s) == InjectString(u, s) ensures t == u { InjectionsAndPrints(s, t, u); }
    } else {
      var t, u :| Print(t, l.fields) == Print(u, l.fields) && t != u;
      InjectionsAndPrints(s, t, u);
    }
  }

  lemma InjectionsAndPrints(s: string, t: Tile, u: Tile)
    ensures InjectString(t, s) == InjectString(u, s) <==> Print(t, LayoutOf(s).fields) == Print(u, LayoutOf(s).fields)
  {
    hide Itoa, InjectString, LayoutOf, Print;
    var l := LayoutOf(s);
    InjectStringIsOnePass(t, s, XYZ);
    InjectStringPrints(t, s);
    InjectStringIsOnePass(u, s, XYZ);
    InjectStringPrints(u, s);
    SameHead(l.head, Print(t, l.fields), Print(u, l.fields));
  }

  lemma SameHead(head: string, a: string, b: string)
    ensures head + a == head + b <==> a == b
  {
    if head + a == head + b { SplitEqual(head, a, head, b); }
  }

  lemma OneEachCovers(fields: seq<Field>)
    requires OneEach(fields)
    ensures Covers(fields)
  {
    assert fields[0] in fields && fields[1] in fields && fields[2] in fields;
  }

  // ---- From the configured template to the keys ---------------------------------------------

  lemma {:induction false} LayoutSkips(u: string, s: string)
    requires OpenFree(u)
    ensures LayoutOf(u + s) == Layout(u + LayoutOf(s).head, LayoutOf(s).fields)
  {
    if u == "" {
      assert u + s == s;
    } else {
      LayoutSkips(u[1..], s);
      assert (u + s)[0] == u[0] && (u + s)[1..] == u[1..] + s;
      ConcatAssociates([u[0]], u[1..], LayoutOf(s).head);
      assert u == [u[0]] + u[1..];
    }
  }

  // Any token but a coordinate is just text.
  lemma LayoutKeeps(n: string, s: string)
    requires BraceFree(n) && n !in XYZ
    ensures LayoutOf(Token(n) + s) == Layout(Token(n) + LayoutOf(s).head, LayoutOf(s).fields)
  {
    var t := Token(n) + s;
    TokenIsUnique(n, s);
    assert t[1..] == (n + "}") + s;
    LayoutSkips(n + "}", s);
    ConcatAssociates("{", n + "}", LayoutOf(s).head);
    assert Token(n) == "{" + (n + "}");
  }

  lemma LayoutHere(n: string, s: string)
    requires BraceFree(n) && n in XYZ
    ensures LayoutOf(Token(n) + s) == Layout("", [Field(n, LayoutOf(s).head)] + LayoutOf(s).fields)
  {
    TokenIsUnique(n, s);
  }

  function FillGaps(fields: seq<Field>, env: map<string, string>): (filled: seq<Field>)
    ensures |filled| == |fields|
    ensures forall i :: 0 <= i < |fields| ==> filled[i] == Field(fields[i].coordinate, Substitute(fields[i].gap, env))
  {
    if fields == [] then [] else
      [Field(fields[0].coordinate, Substitute(fields[0].gap, env))] + FillGaps(fields[1..], env)
  }

  lemma FillFirst(n: string, l: Layout, env: map<string, string>)
    ensures FillGaps([Field(n, l.head)] + l.fields, env)
        == [Field(n, Substitute(l.head, env))] + FillGaps(l.fields, env)
  {
    assert ([Field(n, l.head)] + l.fields)[1..] == l.fields;
  }

  lemma PrintFirst(t: Tile, n: string, gap: string, fields: seq<Field>)
    requires n in XYZ && forall f <- fields :: f.coordinate in XYZ
    ensures Print(t, [Field(n, gap)] + fields) == Coordinates(t)[n] + (gap + Print(t, fields))
  {
    hide Itoa;
    assert ([Field(n, gap)] + fields)[1..] == fields;
    ConcatAssociates(Coordinates(t)[n], gap, Print(t, fields));
  }

  // The one-pass key of any template: the coordinates printed in its layout, and the text between
  // them filled in on its own.
  lemma {:induction false} KeyPrints(s: string, env: map<string, string>, t: Tile)
    ensures var l := LayoutOf(s);
            Substitute(s, env + Coordinates(t)) == Substitute(l.head, env) + Print(t, FillGaps(l.fields, env))
  {
    hide BraceFree, OpenFree, Token, Itoa, Print;
    var all := env + Coordinates(t);
    if StartsToken(s) {
      var n := TokenName(s);
      var rest := s[|n| + 2..];
      KeyPrints(rest, env, t);
      var l := LayoutOf(rest);
      var text := Print(t, FillGaps(l.fields, env));
      if n in XYZ {
        SubstituteHere(n, rest, all);
        LayoutHere(n, rest);
        FillFirst(n, l, env);
        PrintFirst(t, n, Substitute(l.head, env), FillGaps(l.fields, env));
      } else {
        LayoutKeeps(n, rest);
        if n in env {
          SubstituteHere(n, rest, all);
          SubstituteHere(n, l.head, env);
          ConcatAssociates(env[n], Substitute(l.head, env), text);
        } else {
          SubstituteKeeps(n, rest, all);
          SubstituteKeeps(n, l.head, env);
          ConcatAssociates(Token(n), Substitute(l.head, env), text);
        }
      }
    } else if s != "" {
      KeyPrints(s[1..], env, t);
      var l := LayoutOf(s[1..]);
      NoTokenInHead(s);
      HeadCharStays(s[0], l.head, env);
      ConcatAssociates([s[0]], Substitute(l.head, env), Print(t, FillGaps(l.fields, env)));
    } else {
      PrintNothing(t);
    }
  }

  lemma PrintNothing(t: Tile)
    ensures Print(t, []) == ""
  {
  }

  lemma HeadCharStays(ch: char, head: string, env: map<string, string>)
    requires !StartsToken([ch] + head)
    ensures Substitute([ch] + head, env) == [ch] + Substitute(head, env)
  {
    assert ([ch] + head)[1..] == head;
  }

  lemma {:induction false} HeadIsPrefix(s: string)
    ensures LayoutOf(s).head <= s
  {
    if s != "" && !(StartsToken(s) && TokenName(s) in XYZ) {
      HeadIsPrefix(s[1..]);
    }
  }

  // Where the template has a character that begins no token, so does its head.
  lemma NoTokenInHead(s: string)
    requires s != "" && !StartsToken(s)
    ensures !StartsToken([s[0]] + LayoutOf(s[1..]).head)
  {
    HeadIsPrefix(s[1..]);
    assert [s[0]] + LayoutOf(s[1..]).head <= s;
    TokenOfPrefix([s[0]] + LayoutOf(s[1..]).head, s);
  }

  lemma TokenOfPrefix(u: string, s: string)
    ensures StartsToken(u) && u <= s ==> StartsToken(s)
  {
    if StartsToken(u) && u <= s {
      var n := TokenName(u);
      var rest := u[|n| + 2..] + s[|u|..];
      assert s == u + s[|u|..] == Token(n) + rest;
      TokenIsUnique(n, rest);
    }
  }

  // Between two coordinates, and before any brace, there is something other than digits.
  predicate Spaced(fields: seq<Field>) {
    forall i :: 0 <= i < |fields| - 1 ==> !AllDigits(fields[i].gap[..NextBrace(fields[i].gap)])
  }

  // No endpoint and no parameter value can undo the spacing.
  lemma SpacedStaysSeparating(fields: seq<Field>, env: map<string, string>)
    requires Spaced(fields)
    ensures Separating(FillGaps(fields, env))
  {
    forall i | 0 <= i < |fields| - 1 ensures !AllDigits(Substitute(fields[i].gap, env)) {
      var gap := fields[i].gap;
      var u := gap[..NextBrace(gap)];
      assert gap == u + gap[|u|..];
      SubstituteSkips(u, gap[|u|..], env);
      var k := FirstNonDigit(u);
      assert Substitute(gap, env)[k] == u[k];
    }
  }

  // Taking away text without an opening brace takes away no token.
  lemma {:induction false} ContainsLater(u: string, s: string, n: string)
    requires OpenFree(u) && Contains(u + s, Token(n))
    ensures Contains(s, Token(n))
  {
    if u == "" {
      assert u + s == s;
    } else {
      assert (u + s)[0] == u[0] && (u + s)[1..] == u[1..] + s;
      assert Token(n)[0] == '{';
      ContainsLater(u[1..], s, n);
    }
  }

  // The test the configuration makes of a key template: it contains the token.
  lemma {:induction false} ContainedIsAField(s: string, n: string)
    requires n in XYZ && Contains(s, Token(n))
    ensures exists f <- LayoutOf(s).fields :: f.coordinate == n
    decreases |s|
  {
    CoordinateNames(n);
    if Token(n) <= s {
      var rest := s[|Token(n)|..];
      assert s == Token(n) + rest;
      LayoutHere(n, rest);
      assert LayoutOf(s).fields[0].coordinate == n;
    } else if StartsToken(s) && TokenName(s) in XYZ {
      var m := TokenName(s);
      var rest := s[|m| + 2..];
      assert s[1..] == (m + "}") + rest;
      ContainsLater(m + "}", rest, n);
      ContainedIsAField(rest, n);
      var f :| f in LayoutOf(rest).fields && f.coordinate == n;
      assert f in LayoutOf(s).fields;
    } else {
      ContainedIsAField(s[1..], n);
    }
  }

  lemma CoordinateNames(n: string)
    requires n in XYZ
    ensures BraceFree(n)
  {
    assert n == "x" || n == "y" || n == "z";
  }

  lemma FilledCovers(fields: seq<Field>, env: map<string, string>)
    requires Covers(fields)
    ensures Covers(FillGaps(fields, env))
  {
    forall n <- XYZ ensures exists f <- FillGaps(fields, env) :: f.coordinate == n {
      var f :| f in fields && f.coordinate == n;
      var i :| 0 <= i < |fields| && fields[i] == f;
      assert FillGaps(fields, env)[i] in FillGaps(fields, env);
    }
  }

  // What the configuration asks of a key template, with spacing between the coordinates.
  predicate GoodTemplate(template: string) {
    && Contains(template, "{z}") && Contains(template, "{x}") && Contains(template, "{y}")
    && Spaced(LayoutOf(template).fields)
  }

  lemma GoodTemplateCovers(template: string)
    requires GoodTemplate(template)
    ensures Covers(LayoutOf(template).fields)
  {
    hide LayoutOf, Contains, Spaced;
    assert Token("x") == "{x}" && Token("y") == "{y}" && Token("z") == "{z}";
    forall n <- XYZ { ContainedIsAField(template, n); }
  }

  lemma OnePassKeysDiffer(c: KeyConfig, req: Request, t: Tile, u: Tile)
    requires GoodTemplate(c.template) && CacheKey(c, req, t) == CacheKey(c, req, u)
    ensures t == u
  {
    hide CacheKey, Substitute, Separating, Spaced, LayoutOf, Contains, Print, Covers;
    var (fields, env) := (LayoutOf(c.template).fields, Fixed(c, req));
    GoodTemplateCovers(c.template);
    FilledCovers(fields, env);
    SpacedStaysSeparating(fields, env);
    KeysAndPrints(c, req, t, u);
    SeparatingIsInjective(FillGaps(fields, env), t, u);
  }

  // Any key of t, in any order of the parameters, is the one-pass key when the request is clean.
  lemma CleanKey(c: KeyConfig, req: Request, t: Tile, key: string)
    requires Clean(c, req)
    ensures IsKeyOf(c, req, t, key) <==> key == CacheKey(c, req, t)
  {
    hide Clean, CacheKey, KeyInOrder;
    forall order | Orders(order, req.params) ensures KeyInOrder(c, req, t, order) == CacheKey(c, req, t) {
      AnyOrderIsOnePass(c, req, t, order);
    }
    var order := SomeOrder(req.params);
    assert IsKeyOf(c, req, t, KeyInOrder(c, req, t, order));
  }

  // For clean requests: no key the program builds for one tile, in whatever order, is a key it
  // builds for another.
  lemma DistinctTilesDistinctKeys(c: KeyConfig, req: Request, t: Tile, u: Tile, key: string)
    requires Clean(c, req) && GoodTemplate(c.template)
    requires IsKeyOf(c, req, t, key) && IsKeyOf(c, req, u, key)
    ensures t == u
  {
    hide Clean, CacheKey, IsKeyOf, GoodTemplate;
    CleanKey(c, req, t, key);
    CleanKey(c, req, u, key);
    OnePassKeysDiffer(c, req, t, u);
  }

  // For clean requests and a template that names each coordinate once: the keys the program builds
  // tell all tiles apart exactly when, with endpoint and parameters filled in, neither gap consists
  // of digits alone.
  lemma KeysSeparateIff(c: KeyConfig, req: Request)
    requires Clean(c, req) && OneEach(LayoutOf(c.template).fields)
    requires ShortDigitGaps(FillGaps(LayoutOf(c.template).fields, Fixed(c, req)))
    ensures (forall t, u, key :: IsKeyOf(c, req, t, key) && IsKeyOf(c, req, u, key) ==> t == u) <==>
            forall i :: 0 <= i < 2 ==> !AllDigits(Substitute(LayoutOf(c.template).fields[i].gap, Fixed(c, req)))
  {
    hide Clean, Substitute, CacheKey, IsKeyOf, AllDigits, LayoutOf, Print, ShortDigitGaps;
    var (l, env) := (LayoutOf(c.template), Fixed(c, req));
    var filled := FillGaps(l.fields, env);
    FilledOneEach(l.fields, env);
    assert Separating(filled) <==> forall i :: 0 <= i < 2 ==> !AllDigits(Substitute(l.fields[i].gap, env));
    PrintsDifferIff(filled);
    if Separating(filled) {
      forall t, u, key | IsKeyOf(c, req, t, key) && IsKeyOf(c, req, u, key) ensures t == u {
        CleanKey(c, req, t, key);
        CleanKey(c, req, u, key);
        KeysAndPrints(c, req, t, u);
      }
    } else {
      var t, u :| Print(t, filled) == Print(u, filled) && t != u;
      KeysAndPrints(c, req, t, u);
      CleanKey(c, req, t, CacheKey(c, req, t));
      CleanKey(c, req, u, CacheKey(c, req, t));
    }
  }

  lemma KeysAndPrints(c: KeyConfig, req: Request, t: Tile, u: Tile)
    ensures var filled := FillGaps(LayoutOf(c.template).fields, Fixed(c, req));
            CacheKey(c, req, t) == CacheKey(c, req, u) <==> Print(t, filled) == Print(u, filled)
  {
    hide Substitute, Itoa, LayoutOf, Print, Coordinates;
    var (l, env) := (LayoutOf(c.template), Fixed(c, req));
    KeyPrints(c.template, env, t);
    KeyPrints(c.template, env, u);
    SameHead(Substitute(l.head, env), Print(t, FillGaps(l.fields, env)), Print(u, FillGaps(l.fields, env)));
  }

  lemma FilledOneEach(fields: seq<Field>, env: map<string, string>)
    requires OneEach(fields)
    ensures OneEach(FillGaps(fields, env))
  {
    hide Substitute;
    assert forall i :: 0 <= i < 3 ==> fields[i] in fields;
  }

  // Three tokens with two pieces of text between them.
  function ThreeTokens(a: string, gap: string, b: string, gap': string, c: string): string {
    Token(a) + (gap + (Token(b) + (gap' + (Token(c) + ""))))
  }

  lemma LayoutOfThree(a: string, gap: string, b: string, gap': string, c: string)
    requires a in XYZ && b in XYZ && c in XYZ && OpenFree(gap) && OpenFree(gap')
    ensures LayoutOf(ThreeTokens(a, gap, b, gap', c)) == Layout("", [Field(a, gap), Field(b, gap'), Field(c, "")])
    ensures NotNested(ThreeTokens(a, gap, b, gap', c))
  {
    hide LayoutOf, NotNested, Token, OpenFree, BraceFree;
    CoordinateNames(a);
    CoordinateNames(b);
    CoordinateNames(c);
    EmptyTemplate();
    var end := Token(c) + "";
    LayoutHere(c, "");
    TokenThenNotNested(c, "");
    LayoutSkips(gap', end);
    TextThenNotNested(gap', end);
    LayoutHere(b, gap' + end);
    TokenThenNotNested(b, gap' + end);
    LayoutSkips(gap, Token(b) + (gap' + end));
    TextThenNotNested(gap, Token(b) + (gap' + end));
    LayoutHere(a, gap + (Token(b) + (gap' + end)));
    TokenThenNotNested(a, gap + (Token(b) + (gap' + end)));
    assert gap + "" == gap && gap' + "" == gap';
    assert [Field(a, gap)] + ([Field(b, gap')] + ([Field(c, "")] + []))
        == [Field(a, gap), Field(b, gap'), Field(c, "")];
  }

  lemma EmptyTemplate()
    ensures LayoutOf("") == Layout("", []) && NotNested("")
  {
  }

  const DEFAULT_TEMPLATE := "{z}/{x}/{y}"

  lemma ThreeContain(a: string, gap: string, b: string, gap': string, c: string)
    ensures var s := ThreeTokens(a, gap, b, gap', c);
            Contains(s, Token(a)) && Contains(s, Token(b)) && Contains(s, Token(c))
  {
    hide Contains, Token;
    var s := ThreeTokens(a, gap, b, gap', c);
    ContainsAt(gap + (Token(b) + (gap' + (Token(c) + ""))), "", Token(a));
    assert s == "" + Token(a) + (gap + (Token(b) + (gap' + (Token(c) + ""))));
    ContainsAt(gap' + (Token(c) + ""), Token(a) + gap, Token(b));
    assert s == (Token(a) + gap) + Token(b) + (gap' + (Token(c) + ""));
    ContainsAt("", Token(a) + gap + Token(b) + gap', Token(c));
    assert s == (Token(a) + gap + Token(b) + gap') + Token(c) + "";
  }

  lemma TokensSpelled()
    ensures Token("x") == "{x}" && Token("y") == "{y}" && Token("z") == "{z}"
    ensures ThreeTokens("z", "/", "x", "/", "y") == "{z}/{x}/{y}"
    ensures ThreeTokens("z", "/", "x", "", "y") == "{z}/{x}{y}"
  {
  }

  lemma SlashSpaces()
    ensures !AllDigits("/"[..NextBrace("/")])
  {
    assert NextBrace("/") == 1 && "/"[..1] == "/" && '/' in "/";
  }
}
