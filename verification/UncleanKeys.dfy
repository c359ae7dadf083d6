// Keys of requests whose values may contain tokens themselves: what the replacements, made one
// after the other, do to the coordinates that are already filled in (helpers/helpers.go).

module UncleanKeys {
  import opened Wrappers
  import opened Quadtree
  import opened Template
  import opened CacheKeys
  import opened KeyOrder
  import opened KeySeparation

  predicate NumeralChar(ch: char) {
    ch == '-' || IsDigit(ch)
  }

  // Wherever s ends in the beginning of {name}, {name} does not go on with a digit or a minus
  // sign: no number behind s can continue it.
  predicate NoStraddle(s: string, name: string) {
    forall k :: 0 <= k < |s| && |s| - k < |Token(name)| && s[k..] <= Token(name) ==>
      !NumeralChar(Token(name)[|s| - k])
  }

  lemma NoStraddleSuffix(s: string, i: nat, name: string)
    requires NoStraddle(s, name) && i <= |s|
    ensures NoStraddle(s[i..], name)
  {
    hide Token;
    var u := s[i..];
    forall k | 0 <= k < |u| && |u| - k < |Token(name)| && u[k..] <= Token(name)
      ensures !NumeralChar(Token(name)[|u| - k])
    {
      assert u[k..] == s[i + k..];
    }
  }

  lemma NumeralIsOpenFree(num: string)
    requires IsNumeral(num)
    ensures OpenFree(num) && NumeralChar(num[0])
  {
    forall ch <- num ensures ch != '{' { NumeralChars(num, ch); }
  }

  // A number separates the text before it from the text after it.
  lemma {:induction false} ReplaceSplits(s: string, num: string, rest: string, name: string, v: string)
    requires BraceFree(name) && NoStraddle(s, name) && IsNumeral(num)
    ensures ReplaceAll(s + (num + rest), Token(name), v) ==
            ReplaceAll(s, Token(name), v) + (num + ReplaceAll(rest, Token(name), v))
  {
    hide IsNumeral, BraceFree, Token;
    var (t, r) := (Token(name), num + rest);
    if s == "" {
      NumeralIsOpenFree(num);
      OpenFreeSkips(num, name);
      ReplaceSkips(num, rest, name, v);
      assert s + r == r;
    } else if t <= s {
      NoStraddleSuffix(s, |t|, name);
      ReplaceSplits(s[|t|..], num, rest, name, v);
      assert (s + r)[|t|..] == s[|t|..] + r;
      ConcatAssociates(v, ReplaceAll(s[|t|..], t, v), num + ReplaceAll(rest, t, v));
    } else {
      NoStraddleSuffix(s, 1, name);
      ReplaceSplits(s[1..], num, rest, name, v);
      NotAcross(s, num, rest, name);
      assert (s + r)[1..] == s[1..] + r;
      ConcatAssociates([s[0]], ReplaceAll(s[1..], t, v), num + ReplaceAll(rest, t, v));
    }
  }

  lemma NotAcross(s: string, num: string, rest: string, name: string)
    requires s != "" && NoStraddle(s, name) && IsNumeral(num) && !(Token(name) <= s)
    ensures !(Token(name) <= s + (num + rest))
  {
    NumeralIsOpenFree(num);
    hide IsNumeral, Token;
    var whole := s + (num + rest);
    assert whole[|s|] == num[0] && s[0..] == s;
    BothPrefixes(Token(name), s, whole);
  }

  lemma BothPrefixes(t: string, s: string, whole: string)
    requires s <= whole
    ensures t <= whole ==> t <= s || (|s| < |t| && s <= t && t[|s|] == whole[|s|])
  {
    if t <= whole {
      assert |t| <= |s| ==> t == whole[..|t|] == s[..|t|];
      assert |s| < |t| ==> s == whole[..|s|] == t[..|s|];
    }
  }

  // ---- One replacement, and all of them -----------------------------------------------------

  function ReplaceGaps(fields: seq<Field>, name: string, v: string): (replaced: seq<Field>)
    ensures |replaced| == |fields|
    ensures forall i :: 0 <= i < |fields| ==>
              replaced[i] == Field(fields[i].coordinate, ReplaceAll(fields[i].gap, Token(name), v))
  {
    seq(|fields|, i requires 0 <= i < |fields| =>
      Field(fields[i].coordinate, ReplaceAll(fields[i].gap, Token(name), v)))
  }

  predicate GapsApart(fields: seq<Field>, name: string) {
    forall i :: 0 <= i < |fields| - 1 ==> NoStraddle(fields[i].gap, name)
  }

  lemma {:induction false} PrintReplaced(t: Tile, fields: seq<Field>, name: string, v: string)
    requires BraceFree(name) && GapsApart(fields, name) && forall f <- fields :: f.coordinate in XYZ
    ensures ReplaceAll(Print(t, fields), Token(name), v) == Print(t, ReplaceGaps(fields, name, v))
  {
    hide Itoa, NoStraddle, BraceFree, Token, ReplaceAll;
    if fields == [] {
      ReplaceNone(name, v);
    } else {
      var (f, rest) := (fields[0], fields[1..]);
      var num := Coordinates(t)[f.coordinate];
      assert fields == [f] + rest && GapsApart(rest, name);
      PrintReplaced(t, rest, name, v);
      ReplaceBefore(f.gap, t, rest, name, v);
      NumeralSkips(num, f.gap + Print(t, rest), name, v);
      ConcatAssociates(num, f.gap, Print(t, rest));
      ConcatAssociates(num, ReplaceAll(f.gap, Token(name), v), Print(t, ReplaceGaps(rest, name, v)));
      assert ReplaceGaps(fields, name, v)[1..] == ReplaceGaps(rest, name, v);
    }
  }

  lemma ReplaceNone(name: string, v: string)
    ensures ReplaceAll("", Token(name), v) == ""
  {
  }

  lemma NumeralSkips(num: string, rest: string, name: string, v: string)
    requires IsNumeral(num) && BraceFree(name)
    ensures ReplaceAll(num + rest, Token(name), v) == num + ReplaceAll(rest, Token(name), v)
  {
    NumeralIsOpenFree(num);
    OpenFreeSkips(num, name);
    ReplaceSkips(num, rest, name, v);
  }

  lemma ReplaceBefore(s: string, t: Tile, fields: seq<Field>, name: string, v: string)
    requires BraceFree(name) && (fields != [] ==> NoStraddle(s, name)) && forall f <- fields :: f.coordinate in XYZ
    ensures ReplaceAll(s + Print(t, fields), Token(name), v) ==
            ReplaceAll(s, Token(name), v) + ReplaceAll(Print(t, fields), Token(name), v)
  {
    hide Itoa, NoStraddle, BraceFree, Token, ReplaceAll;
    if fields == [] {
      assert s + Print(t, fields) == s;
      ReplaceNone(name, v);
    } else {
      var (num, gap, p) := (Coordinates(t)[fields[0].coordinate], fields[0].gap, Print(t, fields[1..]));
      ConcatAssociates(num, gap, p);
      ReplaceSplits(s, num, gap + p, name, v);
      NumeralSkips(num, gap + p, name, v);
    }
  }

  function FillInTurn(fields: seq<Field>, names: seq<string>, env: map<string, string>): (filled: seq<Field>)
    requires forall n <- names :: n in env
    ensures |filled| == |fields|
    ensures forall i :: 0 <= i < |fields| ==>
              filled[i] == Field(fields[i].coordinate, Sequentially(fields[i].gap, names, env))
  {
    seq(|fields|, i requires 0 <= i < |fields| =>
      Field(fields[i].coordinate, Sequentially(fields[i].gap, names, env)))
  }

  // At no point of the sequence does the text before a coordinate end in the beginning of the token
  // that is replaced next, with a digit or a minus sign to follow.
  predicate NumbersApart(l: Layout, names: seq<string>, env: map<string, string>)
    requires forall n <- names :: n in env
  {
    forall j :: 0 <= j < |names| ==> ApartAt(l, names[..j], names[j], env)
  }

  predicate ApartAt(l: Layout, done: seq<string>, name: string, env: map<string, string>)
    requires forall n <- done :: n in env
  {
    && (l.fields != [] ==> NoStraddle(Sequentially(l.head, done, env), name))
    && GapsApart(FillInTurn(l.fields, done, env), name)
  }

  // The replacements leave the layout as it is: each piece of text between the coordinates is
  // replaced in on its own.
  lemma {:induction false} InTurn(l: Layout, names: seq<string>, env: map<string, string>, t: Tile)
    requires (forall n <- names :: n in env && BraceFree(n)) && NumbersApart(l, names, env)
    requires forall f <- l.fields :: f.coordinate in XYZ
    ensures Sequentially(l.head + Print(t, l.fields), names, env) ==
            Sequentially(l.head, names, env) + Print(t, FillInTurn(l.fields, names, env))
  {
    hide BraceFree, ReplaceAll, Token, GapsApart, NoStraddle, Print;
    var text := l.head + Print(t, l.fields);
    if names == [] {
      assert FillInTurn(l.fields, names, env) == l.fields;
    } else {
      var n := |names| - 1;
      var (done, name) := (names[..n], names[n]);
      assert forall j :: 0 <= j < n ==> done[..j] == names[..j] && done[j] == names[j];
      InTurn(l, done, env, t);
      assert ApartAt(l, done, name, env);
      var (head, fields) := (Sequentially(l.head, done, env), FillInTurn(l.fields, done, env));
      ReplaceBefore(head, t, fields, name, env[name]);
      PrintReplaced(t, fields, name, env[name]);
      assert ReplaceGaps(fields, name, env[name]) == FillInTurn(l.fields, names, env);
    }
  }

  // ---- The keys -----------------------------------------------------------------------------

  // Everything replaced after the coordinates, in turn.
  function Steps(c: KeyConfig, order: seq<string>): seq<string> {
    (if c.hasEndpoint then ["e"] else []) + order
  }

  // Names as the configuration wants them: without braces, and "e" not among the parameters.
  predicate ProperNames(params: map<string, string>) {
    forall n <- params :: BraceFree(n) && n != "e"
  }

  lemma {:induction false} SequentiallyAppend(s: string, a: seq<string>, b: seq<string>, env: map<string, string>)
    requires forall n <- a + b :: n in env
    ensures (forall n <- a :: n in env) && forall n <- b :: n in env
    ensures Sequentially(s, a + b, env) == Sequentially(Sequentially(s, a, env), b, env)
  {
    hide ReplaceAll, Token;
    assert forall n <- a :: n in a + b;
    assert forall n <- b :: n in a + b;
    if b == [] {
      assert a + b == a;
    } else {
      var k := |b| - 1;
      assert (a + b)[..|a + b| - 1] == a + b[..k];
      SequentiallyAppend(s, a, b[..k], env);
    }
  }

  lemma {:induction false} SequentiallySame(s: string, names: seq<string>,
                                            env: map<string, string>, env': map<string, string>)
    requires forall n <- names :: n in env && n in env' && env[n] == env'[n]
    ensures Sequentially(s, names, env) == Sequentially(s, names, env')
  {
    hide ReplaceAll, Token;
    if names != [] { SequentiallySame(s, names[..|names| - 1], env, env'); }
  }

  lemma StepsAreNames(c: KeyConfig, req: Request, order: seq<string>)
    requires ProperNames(req.params) && Orders(order, req.params)
    ensures forall n <- Steps(c, order) :: n in Fixed(c, req) && BraceFree(n)
    ensures forall n <- order :: n in Fixed(c, req) && Fixed(c, req)[n] == req.params[n]
    ensures c.hasEndpoint ==> Fixed(c, req)["e"] == req.endpoint
  {
    forall n <- Steps(c, order) ensures n in Fixed(c, req) && BraceFree(n) {
      if n !in order { assert n == "e" && BraceFree("e"); }
    }
  }

  lemma StepsAre(c: KeyConfig, req: Request, t: Tile, order: seq<string>)
    requires ProperNames(req.params) && Orders(order, req.params)
    ensures forall n <- Steps(c, order) :: n in Fixed(c, req) && BraceFree(n)
    ensures KeyInOrder(c, req, t, order) == Sequentially(InjectString(t, c.template), Steps(c, order), Fixed(c, req))
  {
    hide ReplaceAll, InjectString, Contains, Sequentially, Fixed, BraceFree, ProperNames;
    var (text, env) := (InjectString(t, c.template), Fixed(c, req));
    StepsAreNames(c, req, order);
    SequentiallySame(FillEndpoint(c, req, text), order, req.params, env);
    if c.hasEndpoint {
      EndpointStep(c, req, text, env);
      SequentiallyAppend(text, ["e"], order, env);
    } else {
      assert Steps(c, order) == order;
    }
  }

  lemma EndpointStep(c: KeyConfig, req: Request, text: string, env: map<string, string>)
    requires c.hasEndpoint && "e" in env && env["e"] == req.endpoint
    ensures FillEndpoint(c, req, text) == Sequentially(text, ["e"], env)
  {
    hide ReplaceAll, Contains, Sequentially;
    assert Token("e") == "{e}";
    if !Contains(text, "{e}") { ReplaceMissing(text, "{e}", req.endpoint); }
    SequentiallyOneMore(text, [], "e", env);
    assert [] + ["e"] == ["e"];
  }

  // The values, put in by turns in this order, keep the numbers apart.
  predicate KeepsApart(c: KeyConfig, req: Request, order: seq<string>) {
    (forall n <- Steps(c, order) :: n in Fixed(c, req))
    && NumbersApart(LayoutOf(c.template), Steps(c, order), Fixed(c, req))
  }

  // The key in some order is the template's layout, the text between the coordinates replaced in.
  lemma KeyInOrderPrints(c: KeyConfig, req: Request, t: Tile, order: seq<string>)
    requires ProperNames(req.params) && Orders(order, req.params)
    requires KeepsApart(c, req, order)
    ensures var (l, names, env) := (LayoutOf(c.template), Steps(c, order), Fixed(c, req));
            KeyInOrder(c, req, t, order) ==
            Sequentially(l.head, names, env) + Print(t, FillInTurn(l.fields, names, env))
  {
    hide InjectString, LayoutOf, Print, Sequentially, NumbersApart, KeyInOrder, Steps, Fixed, Orders, ProperNames, Itoa;
    StepsAre(c, req, t, order);
    InjectStringIsOnePass(t, c.template, XYZ);
    InjectStringPrints(t, c.template);
    InTurn(LayoutOf(c.template), Steps(c, order), Fixed(c, req), t);
  }

  // In one and the same order: distinct tiles have distinct keys.
  lemma DistinctTilesInOrder(c: KeyConfig, req: Request, order: seq<string>, t: Tile, u: Tile)
    requires ProperNames(req.params) && Orders(order, req.params) && GoodTemplate(c.template)
    requires KeepsApart(c, req, order)
    requires KeyInOrder(c, req, t, order) == KeyInOrder(c, req, u, order)
    ensures t == u
  {
    hide LayoutOf, Print, Sequentially, NumbersApart, KeyInOrder, Contains, Spaced, Separating, Covers;
    var (l, names, env) := (LayoutOf(c.template), Steps(c, order), Fixed(c, req));
    StepsAre(c, req, t, order);
    GoodTemplateCovers(c.template);
    FilledInTurnCovers(l.fields, names, env);
    SpacedInTurn(l.fields, names, env);
    KeyInOrderPrints(c, req, t, order);
    KeyInOrderPrints(c, req, u, order);
    var filled := FillInTurn(l.fields, names, env);
    SplitEqual(Sequentially(l.head, names, env), Print(t, filled), Sequentially(l.head, names, env), Print(u, filled));
    SeparatingIsInjective(filled, t, u);
  }

  lemma FilledInTurnCovers(fields: seq<Field>, names: seq<string>, env: map<string, string>)
    requires Covers(fields) && forall n <- names :: n in env
    ensures Covers(FillInTurn(fields, names, env))
  {
    hide Sequentially;
    forall n <- XYZ ensures exists f <- FillInTurn(fields, names, env) :: f.coordinate == n {
      var f :| f in fields && f.coordinate == n;
      var i :| 0 <= i < |fields| && fields[i] == f;
      assert FillInTurn(fields, names, env)[i] in FillInTurn(fields, names, env);
    }
  }

  lemma SpacedInTurn(fields: seq<Field>, names: seq<string>, env: map<string, string>)
    requires Spaced(fields) && forall n <- names :: n in env && BraceFree(n)
    ensures Separating(FillInTurn(fields, names, env))
  {
    hide Sequentially, BraceFree;
    forall i | 0 <= i < |fields| - 1 ensures !AllDigits(Sequentially(fields[i].gap, names, env)) {
      var gap := fields[i].gap;
      var u := gap[..NextBrace(gap)];
      assert gap == u + gap[|u|..];
      BraceFreeIsOpenFree(u);
      PrefixStays(u, gap[|u|..], names, env);
      var k := FirstNonDigit(u);
      assert Sequentially(gap, names, env)[k] == u[k];
    }
  }

  lemma BraceFreeIsOpenFree(u: string)
    requires BraceFree(u)
    ensures OpenFree(u)
  {
  }

  lemma {:induction false} PrefixStays(u: string, s: string, names: seq<string>, env: map<string, string>)
    requires OpenFree(u) && forall n <- names :: n in env && BraceFree(n)
    ensures Sequentially(u + s, names, env) == u + Sequentially(s, names, env)
  {
    hide OpenFree, BraceFree, ReplaceAll, Token;
    if names != [] {
      var k := |names| - 1;
      PrefixStays(u, s, names[..k], env);
      OpenFreeSkips(u, names[k]);
      ReplaceSkips(u, Sequentially(s, names[..k], env), names[k], env[names[k]]);
    }
  }

  // For any values, as long as the numbers stay apart: in one and the same order, keys tell all
  // tiles apart exactly when neither gap, replaced in that order, consists of digits alone.
  lemma SeparateInOrderIff(c: KeyConfig, req: Request, order: seq<string>)
    requires ProperNames(req.params) && Orders(order, req.params) && OneEach(LayoutOf(c.template).fields)
    requires KeepsApart(c, req, order)
    requires ShortDigitGaps(FillInTurn(LayoutOf(c.template).fields, Steps(c, order), Fixed(c, req)))
    ensures (forall t, u :: KeyInOrder(c, req, t, order) == KeyInOrder(c, req, u, order) ==> t == u) <==>
            forall i :: 0 <= i < 2 ==>
              !AllDigits(Sequentially(LayoutOf(c.template).fields[i].gap, Steps(c, order), Fixed(c, req)))
  {
    hide LayoutOf, Print, Sequentially, NumbersApart, KeyInOrder, AllDigits, ShortDigitGaps, Steps, Fixed;
    var (l, names, env) := (LayoutOf(c.template), Steps(c, order), Fixed(c, req));
    var filled := FillInTurn(l.fields, names, env);
    FilledInTurnOneEach(l.fields, names, env);
    assert Separating(filled) <==> forall i :: 0 <= i < 2 ==> !AllDigits(Sequentially(l.fields[i].gap, names, env));
    PrintsDifferIff(filled);
    var head := Sequentially(l.head, names, env);
    if Separating(filled) {
      forall t, u | KeyInOrder(c, req, t, order) == KeyInOrder(c, req, u, order) ensures t == u {
        KeyInOrderPrints(c, req, t, order);
        KeyInOrderPrints(c, req, u, order);
        SplitEqual(head, Print(t, filled), head, Print(u, filled));
      }
    } else {
      var t, u :| Print(t, filled) == Print(u, filled) && t != u;
      KeyInOrderPrints(c, req, t, order);
      KeyInOrderPrints(c, req, u, order);
    }
  }

  lemma FilledInTurnOneEach(fields: seq<Field>, names: seq<string>, env: map<string, string>)
    requires OneEach(fields) && forall n <- names :: n in env
    ensures OneEach(FillInTurn(fields, names, env))
  {
    hide Sequentially;
    assert forall i :: 0 <= i < 3 ==> fields[i] in fields;
  }

  // Names without digits and minus signs keep the numbers apart, whatever the values.
  lemma NumeralFreeNames(l: Layout, names: seq<string>, env: map<string, string>)
    requires forall n <- names :: n in env && forall ch <- n :: !NumeralChar(ch)
    ensures NumbersApart(l, names, env)
  {
    hide Sequentially, NoStraddle;
    forall j | 0 <= j < |names| ensures ApartAt(l, names[..j], names[j], env) {
      assert names[j] in names;
      forall s: string ensures NoStraddle(s, names[j]) { NothingToStraddle(s, names[j]); }
    }
  }

  lemma NothingToStraddle(s: string, name: string)
    requires forall ch <- name :: !NumeralChar(ch)
    ensures NoStraddle(s, name)
  {
    assert forall i :: 0 <= i < |name| ==> Token(name)[i + 1] == name[i];
  }

  // So with such names, in one and the same order, distinct tiles have distinct keys for every
  // request there is.
  lemma NumeralFreeNamesSeparate(c: KeyConfig, req: Request, order: seq<string>, t: Tile, u: Tile)
    requires ProperNames(req.params) && Orders(order, req.params) && GoodTemplate(c.template)
    requires forall n <- req.params, ch <- n :: !NumeralChar(ch)
    requires KeyInOrder(c, req, t, order) == KeyInOrder(c, req, u, order)
    ensures t == u
  {
    hide KeyInOrder, GoodTemplate, NumbersApart, LayoutOf;
    StepsAre(c, req, t, order);
    assert forall n <- Steps(c, order) :: n == "e" || n in req.params;
    assert forall ch <- "e" :: !NumeralChar(ch);
    NumeralFreeNames(LayoutOf(c.template), Steps(c, order), Fixed(c, req));
    DistinctTilesInOrder(c, req, order, t, u);
  }

  // ---- Names with digits --------------------------------------------------------------------

  // Without either condition the promise fails: parameter a brings an opening brace, a coordinate
  // becomes the beginning of another parameter's name, and is replaced together with it.
  const SWALLOWING := KeyConfig("{a}{x}/}{y}/{z}", false)
  const SWALLOWED := map["a" := "{", "1/" := "w", "2/" := "w"]

  lemma NumberSwallowed(req: Request)
    requires req.params == SWALLOWED
    ensures LawfulTemplate(SWALLOWING.template) && GoodTemplate(SWALLOWING.template) && LawfulParams(req.params)
    ensures Orders(["a", "1/", "2/"], req.params)
    ensures KeyInOrder(SWALLOWING, req, Tile(1, 5, 7), ["a", "1/", "2/"]) == "w5/7"
    ensures KeyInOrder(SWALLOWING, req, Tile(2, 5, 7), ["a", "1/", "2/"]) == "w5/7"
    ensures CacheKey(SWALLOWING, req, Tile(1, 5, 7)) != CacheKey(SWALLOWING, req, Tile(2, 5, 7))
  {
    hide LawfulTemplate, GoodTemplate, LawfulParams, Orders, CacheKey, KeyInOrder;
    SwallowingTemplate();
    SwallowingNames();
    SwallowedKey(req, Tile(1, 5, 7), "1", "1/", "2/");
    SwallowedKey(req, Tile(2, 5, 7), "2", "2/", "1/");
    if CacheKey(SWALLOWING, req, Tile(1, 5, 7)) == CacheKey(SWALLOWING, req, Tile(2, 5, 7)) {
      OnePassKeysDiffer(SWALLOWING, req, Tile(1, 5, 7), Tile(2, 5, 7));
    }
  }

  // The tile whose x is printed as x: parameter n = x/ takes it away, the other does nothing.
  lemma SwallowedKey(req: Request, t: Tile, x: string, n: string, other: string)
    requires req.params == SWALLOWED && t.y == 5 && t.zoom == 7 && (t.x == 1 || t.x == 2)
    requires if t.x == 1 then x == "1" && n == "1/" && other == "2/" else x == "2" && n == "2/" && other == "1/"
    ensures KeyInOrder(SWALLOWING, req, t, ["a", "1/", "2/"]) == "w5/7"
  {
    hide ReplaceAll, Token, InjectString, Sequentially;
    SwallowingNames();
    SwallowingInjected(t, x);
    var text := "{a}" + (x + "/}5/7");
    assert x + "/}5/7" == n + "}5/7";
    Swallow(n, other);
    assert SWALLOWED["a"] == "{" && SWALLOWED["1/"] == "w" && SWALLOWED["2/"] == "w";
    InThree(text, "a", "1/", "2/", SWALLOWED);
  }

  lemma SwallowingNames()
    ensures Admitted("a") && Admitted("1/") && Admitted("2/") && LawfulParams(SWALLOWED)
    ensures Orders(["a", "1/", "2/"], SWALLOWED)
  {
  }

  lemma SwallowingTemplate()
    ensures SWALLOWING.template == Token("a") + ThreeTokens("x", "/}", "y", "/", "z")
    ensures LayoutOf(SWALLOWING.template) == Layout("{a}", [Field("x", "/}"), Field("y", "/"), Field("z", "")])
    ensures LawfulTemplate(SWALLOWING.template) && GoodTemplate(SWALLOWING.template)
  {
    hide LayoutOf, NotNested, Contains, Spaced;
    SwallowingSpelled();
    var three := ThreeTokens("x", "/}", "y", "/", "z");
    LayoutOfThree("x", "/}", "y", "/", "z");
    ThreeContain("x", "/}", "y", "/", "z");
    LayoutKeeps("a", three);
    TokenThenNotNested("a", three);
    forall n | n in XYZ ensures Contains(Token("a") + three, Token(n)) { ContainsBehind(Token("a"), three, Token(n)); }
    assert Token("x") == "{x}" && Token("y") == "{y}" && Token("z") == "{z}";
    assert Spaced(LayoutOf(SWALLOWING.template).fields) by { SwallowingSpaced(); }
  }

  lemma SwallowingSpelled()
    ensures SWALLOWING.template == Token("a") + ThreeTokens("x", "/}", "y", "/", "z")
    ensures Token("a") + "" == "{a}" && BraceFree("a") && OpenFree("/}") && OpenFree("/")
  {
  }

  lemma SwallowingSpaced()
    ensures Spaced([Field("x", "/}"), Field("y", "/"), Field("z", "")])
  {
    SlashSpaces();
    NextBraceIs("/}", 1);
    assert "/}"[..1] == "/" && '/' in "/";
  }

  lemma {:induction false} ContainsBehind(u: string, s: string, t: string)
    requires Contains(s, t)
    ensures Contains(u + s, t)
  {
    if u == "" {
      assert u + s == s;
    } else {
      ContainsBehind(u[1..], s, t);
      assert (u + s)[1..] == u[1..] + s;
    }
  }

  lemma SwallowingInjected(t: Tile, x: string)
    requires t.y == 5 && t.zoom == 7 && (t.x == 1 || t.x == 2) && x == if t.x == 1 then "1" else "2"
    ensures InjectString(t, SWALLOWING.template) == "{a}" + (x + "/}5/7")
  {
    hide InjectString, LayoutOf, LawfulTemplate, GoodTemplate, Print, Itoa, Coordinates, Substitute;
    SwallowingTemplate();
    InjectStringIsOnePass(t, SWALLOWING.template, XYZ);
    InjectStringPrints(t, SWALLOWING.template);
    SwallowingPrinted(t, x);
  }

  lemma SwallowingPrinted(t: Tile, x: string)
    requires t.y == 5 && t.zoom == 7 && (t.x == 1 || t.x == 2) && x == if t.x == 1 then "1" else "2"
    ensures Print(t, [Field("x", "/}"), Field("y", "/"), Field("z", "")]) == x + "/}5/7"
  {
    hide Print, Itoa;
    PrintThree(t, [Field("x", "/}"), Field("y", "/"), Field("z", "")]);
    SmallNumbers();
    var (y, z) := (Itoa(t.y), Itoa(t.zoom));
    assert "/}" + (y + ("/" + (z + ""))) == "/}5/7" by { assert y == "5" && z == "7"; }
  }

  lemma SmallNumbers()
    ensures Itoa(1) == "1" && Itoa(2) == "2" && Itoa(5) == "5" && Itoa(7) == "7"
  {
  }

  // {a} becomes "{", which makes n, with its number in front, a token.
  lemma Swallow(n: string, other: string)
    requires BraceFree(n) && BraceFree(other) && n != other
    ensures ReplaceAll("{a}" + (n + "}5/7"), Token("a"), "{") == Token(n) + "5/7"
    ensures ReplaceAll(Token(n) + "5/7", Token(n), "w") == "w5/7"
    ensures ReplaceAll(Token(n) + "5/7", Token(other), "w") == Token(n) + "5/7"
    ensures ReplaceAll("w5/7", Token(other), "w") == "w5/7"
  {
    hide ReplaceAll;
    assert "{a}" == Token("a") && OpenFree(n + "}5/7") && BraceFree("a");
    ReplaceFirst("a", "{", n + "}5/7");
    ReplaceText("5/7", n, "w");
    ReplaceHere("5/7", n, "w");
    ReplaceOther(n, other, "w", "5/7");
    ReplaceText("w5/7", other, "w");
  }

  lemma InThree(s: string, a: string, b: string, d: string, params: map<string, string>)
    requires a in params && b in params && d in params
    ensures Sequentially(s, [a, b, d], params) ==
            ReplaceAll(ReplaceAll(ReplaceAll(s, Token(a), params[a]), Token(b), params[b]), Token(d), params[d])
  {
    hide ReplaceAll, Token, Sequentially;
    SequentiallyOneMore(s, [], a, params);
    SequentiallyOneMore(s, [] + [a], b, params);
    SequentiallyOneMore(s, [] + [a] + [b], d, params);
    assert [a, b, d] == [] + [a] + [b] + [d];
  }

  // ---- Templates of coordinates alone -------------------------------------------------------

  // Text without an opening brace is left alone.
  lemma {:induction false} NothingToReplace(s: string, name: string, v: string)
    requires OpenFree(s)
    ensures ReplaceAll(s, Token(name), v) == s
  {
    if s != "" {
      assert Token(name)[0] == '{' && s[0] in s;
      NothingToReplace(s[1..], name, v);
    }
  }

  lemma {:induction false} NothingInTurn(s: string, names: seq<string>, env: map<string, string>)
    requires OpenFree(s) && forall n <- names :: n in env
    ensures Sequentially(s, names, env) == s
  {
    hide ReplaceAll, Token, OpenFree;
    if names != [] {
      NothingInTurn(s, names[..|names| - 1], env);
      NothingToReplace(s, names[|names| - 1], env[names[|names| - 1]]);
    }
  }

  // Once nothing but coordinates and text without opening braces is left, no request matters.
  lemma OpenFreeKey(c: KeyConfig, req: Request, t: Tile, key: string)
    requires OpenFree(InjectString(t, c.template)) && IsKeyOf(c, req, t, key)
    ensures key == InjectString(t, c.template)
  {
    hide InjectString, ReplaceAll, OpenFree, Sequentially;
    var text := InjectString(t, c.template);
    assert Token("e") == "{e}";
    NothingToReplace(text, "e", req.endpoint);
    var order :| Orders(order, req.params) && key == KeyInOrder(c, req, t, order);
    NothingInTurn(text, order, req.params);
  }

  lemma {:induction false} PrintIsOpenFree(t: Tile, fields: seq<Field>)
    requires forall f <- fields :: f.coordinate in XYZ && OpenFree(f.gap)
    ensures OpenFree(Print(t, fields))
  {
    if fields != [] {
      assert fields == [fields[0]] + fields[1..];
      PrintIsOpenFree(t, fields[1..]);
      hide Itoa;
      NumeralIsOpenFree(Coordinates(t)[fields[0].coordinate]);
    }
  }

  // The keys of a template of three coordinates and text: the same for every request and order.
  lemma KeyOfThree(c: KeyConfig, req: Request, t: Tile, key: string, fields: seq<Field>)
    requires LayoutOf(c.template) == Layout("", fields) && IsKeyOf(c, req, t, key)
    requires forall f <- fields :: f.coordinate in XYZ && OpenFree(f.gap)
    ensures key == Print(t, fields)
  {
    hide InjectString, OpenFree, LayoutOf, Print, IsKeyOf;
    InjectStringIsOnePass(t, c.template, XYZ);
    InjectStringPrints(t, c.template);
    PrintIsOpenFree(t, fields);
    assert "" + Print(t, fields) == Print(t, fields);
    OpenFreeKey(c, req, t, key);
  }

  // The default template passes the configuration's test, and tells all tiles apart for every
  // request, clean or not, and in all orders.
  lemma DefaultTemplateSeparates(c: KeyConfig, req: Request, t: Tile, u: Tile, key: string)
    requires c.template == DEFAULT_TEMPLATE && IsKeyOf(c, req, t, key) && IsKeyOf(c, req, u, key)
    ensures GoodTemplate(c.template) && t == u
  {
    hide IsKeyOf, LayoutOf, Print, AllDigits, GoodTemplate;
    DefaultIsGood();
    SlashIsNoDigit();
    GoodTemplateCovers(c.template);
    ThreeSeparate(c, req, t, u, key, [Field("z", "/"), Field("x", "/"), Field("y", "")]);
  }

  lemma DefaultIsGood()
    ensures LayoutOf(DEFAULT_TEMPLATE) == Layout("", [Field("z", "/"), Field("x", "/"), Field("y", "")])
    ensures GoodTemplate(DEFAULT_TEMPLATE)
  {
    hide LayoutOf, Contains, Token, ThreeTokens, AllDigits, NextBrace, NotNested;
    TokensSpelled();
    LayoutOfThree("z", "/", "x", "/", "y");
    ThreeContain("z", "/", "x", "/", "y");
    SlashSpaces();
  }

  lemma ThreeSeparate(c: KeyConfig, req: Request, t: Tile, u: Tile, key: string, fields: seq<Field>)
    requires LayoutOf(c.template) == Layout("", fields) && IsKeyOf(c, req, t, key) && IsKeyOf(c, req, u, key)
    requires (forall f <- fields :: f.coordinate in XYZ && OpenFree(f.gap)) && Separating(fields) && Covers(fields)
    ensures t == u
  {
    hide IsKeyOf, LayoutOf, Print, OpenFree, Separating, Covers;
    KeyOfThree(c, req, t, key, fields);
    KeyOfThree(c, req, u, key, fields);
    SeparatingIsInjective(fields, t, u);
  }

  lemma SlashIsNoDigit()
    ensures !AllDigits("/")
  {
    assert '/' in "/";
  }

  // The configuration also accepts "{z}/{x}{y}", for which tiles (1, 11) and (11, 1) of any
  // level share their key, whatever the request and the orders.
  lemma AdjacentTokensCollide(c: KeyConfig, req: Request, z: int64, key: string, key': string)
    requires c.template == "{z}/{x}{y}"
    requires IsKeyOf(c, req, Tile(1, 11, z), key) && IsKeyOf(c, req, Tile(11, 1, z), key')
    ensures LawfulTemplate(c.template) && key == key'
  {
    hide IsKeyOf, LayoutOf, Contains, Token, ThreeTokens, NotNested, Print, Itoa;
    TokensSpelled();
    LayoutOfThree("z", "/", "x", "", "y");
    ThreeContain("z", "/", "x", "", "y");
    var fields := [Field("z", "/"), Field("x", ""), Field("y", "")];
    KeyOfThree(c, req, Tile(1, 11, z), key, fields);
    KeyOfThree(c, req, Tile(11, 1, z), key', fields);
    PrintThree(Tile(1, 11, z), fields);
    PrintThree(Tile(11, 1, z), fields);
    OneAndEleven();
  }

  lemma OneAndEleven()
    ensures Itoa(1) + ("" + (Itoa(11) + "")) == Itoa(11) + ("" + (Itoa(1) + ""))
  {
    assert Digits(1) == "1" && Digits(11) == "1" + "1";
  }
}
