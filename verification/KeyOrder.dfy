// When the cache key depends on the order in which Go ranges over the parameters
// (helpers/helpers.go, config/config.go).

module KeyOrder {
  import opened Wrappers
  import opened Quadtree
  import opened Template
  import opened CacheKeys

  // A parameter name the configuration admits, taken to be without braces.
  predicate Admitted(name: string) {
    name != "" && BraceFree(name) && name !in ["e", "z", "x", "y"]
  }

  // What the configuration demands of a key template, and no nested braces.
  predicate LawfulTemplate(template: string) {
    NotNested(template) && Contains(template, "{z}") && Contains(template, "{x}") && Contains(template, "{y}")
  }

  // What a request can carry: admitted names, values that are not empty.
  predicate LawfulParams(params: map<string, string>) {
    forall n <- params :: Admitted(n) && params[n] != ""
  }

  // Apart from parameter a, nothing that is filled in has an opening brace.
  predicate OthersOpenFree(a: string, req: Request) {
    OpenFree(req.endpoint) && forall n <- req.params :: n != a ==> OpenFree(req.params[n])
  }

  // Whatever else the configuration and the request hold, with value v for parameter a the key
  // does not depend on the order.
  ghost predicate OrderFree(a: string, v: string) {
    forall c: KeyConfig, req: Request, t: Tile, order: seq<string>, order': seq<string> ::
      LawfulTemplate(c.template) && LawfulParams(req.params) && OthersOpenFree(a, req)
      && a in req.params && req.params[a] == v && Orders(order, req.params) && Orders(order', req.params)
      ==> KeyInOrder(c, req, t, order) == KeyInOrder(c, req, t, order')
  }

  // After each opening brace v goes on to another opening brace, or to a closing one behind a name
  // that no other parameter can have: none, a reserved one, or a itself.
  predicate Settled(a: string, v: string) {
    v == "" ||
    (Settled(a, v[1..]) &&
     (v[0] == '{' ==> var (rest, i) := (v[1..], NextBrace(v[1..]));
                      i < |rest| && (rest[i] == '{' || !Admitted(rest[..i]) || rest[..i] == a)))
  }

  lemma {:induction false} SettledSkips(a: string, v: string, b: string)
    requires Settled(a, v) && Admitted(b) && b != a
    ensures Skips(v, b)
  {
    if v != "" { SettledSkips(a, v[1..], b); }
  }

  // ---- A settled value does no harm ---------------------------------------------------------

  lemma SettledIsClean(c: KeyConfig, req: Request, a: string)
    requires LawfulTemplate(c.template) && LawfulParams(req.params) && OthersOpenFree(a, req)
    requires a in req.params && Settled(a, req.params[a])
    ensures Clean(c, req)
  {
    hide Settled, Skips, OpenFree, NotNested;
    forall n <- req.params { OpenFreeSkips(req.endpoint, n); }
    forall n <- req.params, n' <- req.params | n' != n ensures Skips(req.params[n'], n) {
      if n' == a { SettledSkips(a, req.params[a], n); } else { OpenFreeSkips(req.params[n'], n); }
    }
  }

  lemma SettledIsOrderFree(a: string, v: string)
    requires Settled(a, v)
    ensures OrderFree(a, v)
  {
    hide Settled, LawfulTemplate, LawfulParams, OthersOpenFree, KeyInOrder, Clean, CacheKey;
    forall c: KeyConfig, req: Request, t: Tile, order: seq<string>, order': seq<string> |
      LawfulTemplate(c.template) && LawfulParams(req.params) && OthersOpenFree(a, req)
      && a in req.params && req.params[a] == v && Orders(order, req.params) && Orders(order', req.params)
      ensures KeyInOrder(c, req, t, order) == KeyInOrder(c, req, t, order')
    {
      SettledIsClean(c, req, a);
      AnyOrderIsOnePass(c, req, t, order);
      AnyOrderIsOnePass(c, req, t, order');
    }
  }

  // ---- Any other value does -----------------------------------------------------------------

  // Where v is not settled: an opening brace with no brace behind it, or before another
  // parameter's name and its closing brace.
  lemma {:induction false} Unsettled(a: string, v: string) returns (p: string, q: string)
    requires !Settled(a, v)
    ensures v == p + "{" + q
    ensures var i := NextBrace(q); i == |q| || (q[i] == '}' && Admitted(q[..i]) && q[..i] != a)
  {
    if Settled(a, v[1..]) {
      p, q := "", v[1..];
    } else {
      var p', q' := Unsettled(a, v[1..]);
      p, q := [v[0]] + p', q';
      assert v == [v[0]] + (p' + "{" + q');
    }
  }

  // A token of another parameter inside v, or one that some text after v completes.
  lemma TokenInside(a: string, v: string) returns (b: string, tail: string)
    requires Admitted(a) && !Settled(a, v)
    ensures Admitted(b) && b != a && OpenFree(tail) && forall rest :: Contains(v + (tail + rest), Token(b))
  {
    hide Settled, Contains;
    var p, q := Unsettled(a, v);
    var i := NextBrace(q);
    if i < |q| {
      b, tail := q[..i], "";
      assert q == b + "}" + q[i + 1..];
      forall rest ensures Contains(v + (tail + rest), Token(b)) {
        assert v + (tail + rest) == p + Token(b) + (q[i + 1..] + rest);
        ContainsAt(q[i + 1..] + rest, p, Token(b));
      }
    } else {
      assert q[..|q|] == q;
      b, tail := q + (a + "_"), a + "_}";
      forall rest ensures Contains(v + (tail + rest), Token(b)) {
        assert v + (tail + rest) == p + Token(b) + rest;
        ContainsAt(rest, p, Token(b));
      }
    }
  }

  function Openings(s: string): nat {
    if s == "" then 0 else Openings(s[1..]) + if s[0] == '{' then 1 else 0
  }

  lemma {:induction false} OpeningsAdd(a: string, b: string)
    ensures Openings(a + b) == Openings(a) + Openings(b)
  {
    if a == "" {
      assert a + b == b;
    } else {
      OpeningsAdd(a[1..], b);
      assert (a + b)[0] == a[0] && (a + b)[1..] == a[1..] + b;
    }
  }

  lemma {:induction false} OpenFreeHasNone(s: string)
    requires OpenFree(s)
    ensures Openings(s) == 0
  {
    if s != "" { OpenFreeHasNone(s[1..]); }
  }

  // Replacing a token by text without opening braces shows.
  lemma {:induction false} ReplacingShows(s: string, name: string, w: string)
    requires OpenFree(w)
    ensures Openings(ReplaceAll(s, Token(name), w)) <= Openings(s)
    ensures Contains(s, Token(name)) ==> Openings(ReplaceAll(s, Token(name), w)) < Openings(s)
  {
    var t := Token(name);
    if s == "" {
    } else if t <= s {
      var rest := s[|t|..];
      ReplacingShows(rest, name, w);
      assert s == "{" + (name + "}") + rest;
      OpeningsAdd("{" + (name + "}"), rest);
      OpeningsAdd("{", name + "}");
      OpeningsAdd(w, ReplaceAll(rest, t, w));
      OpenFreeHasNone(w);
    } else {
      ReplacingShows(s[1..], name, w);
      OpeningsAdd([s[0]], ReplaceAll(s[1..], t, w));
    }
  }

  // {a} and then text without opening braces: the two orders of filling in a and b.
  lemma OrderShows(a: string, v: string, b: string, w: string, text: string)
    requires BraceFree(a) && BraceFree(b) && a != b && OpenFree(text) && OpenFree(w) && Contains(v + text, Token(b))
    ensures var s := Token(a) + text;
            ReplaceAll(ReplaceAll(s, Token(a), v), Token(b), w) != ReplaceAll(ReplaceAll(s, Token(b), w), Token(a), v)
  {
    hide BraceFree, OpenFree, Contains, ReplaceAll, Token;
    ReplaceFirst(a, v, text);
    ReplaceOther(a, b, w, text);
    ReplacingShows(v + text, b, w);
  }

  lemma ReplaceFirst(a: string, v: string, text: string)
    requires BraceFree(a) && OpenFree(text)
    ensures ReplaceAll(Token(a) + text, Token(a), v) == v + text
  {
    hide ReplaceAll;
    ReplaceText(text, a, v);
    ReplaceHere(text, a, v);
  }

  lemma ReplaceText(text: string, name: string, v: string)
    requires BraceFree(name) && OpenFree(text)
    ensures ReplaceAll(text, Token(name), v) == text
  {
    assert text + "" == text;
    OpenFreeSkips(text, name);
    ReplaceSkips(text, "", name, v);
  }

  lemma ReplaceOther(a: string, b: string, w: string, text: string)
    requires BraceFree(a) && BraceFree(b) && a != b && OpenFree(text)
    ensures ReplaceAll(Token(a) + text, Token(b), w) == Token(a) + text
  {
    hide ReplaceAll;
    ReplaceText(text, b, w);
    OtherTokenStays(a, text, b);
    CopyToken(a, text, b, w);
  }

  // ---- A template that shows it -------------------------------------------------------------

  // {a}, the text that may complete another token, and the three coordinates.
  function Showing(a: string, tail: string): string {
    Token(a) + (tail + ("/" + (Token("z") + ("/" + (Token("x") + ("/" + (Token("y") + "")))))))
  }

  // The coordinates, printed.
  function Printed(t: Tile): string {
    "/" + (Itoa(t.zoom) + ("/" + (Itoa(t.x) + ("/" + (Itoa(t.y) + "")))))
  }

  lemma ShowingIsLawful(a: string, tail: string)
    requires BraceFree(a) && OpenFree(tail)
    ensures LawfulTemplate(Showing(a, tail))
  {
    hide NotNested, Contains, Token, OpenFree, BraceFree;
    ShowingIsNotNested(a, tail);
    var s := Showing(a, tail);
    var head := Token(a) + (tail + "/");
    TokensOfCoordinates();
    assert s == head + Token("z") + ("/" + (Token("x") + ("/" + (Token("y") + ""))));
    ContainsAt("/" + (Token("x") + ("/" + (Token("y") + ""))), head, Token("z"));
    assert s == (head + Token("z") + "/") + Token("x") + ("/" + (Token("y") + ""));
    ContainsAt("/" + (Token("y") + ""), head + Token("z") + "/", Token("x"));
    assert s == (head + Token("z") + "/" + Token("x") + "/") + Token("y") + "";
    ContainsAt("", head + Token("z") + "/" + Token("x") + "/", Token("y"));
  }

  lemma TokensOfCoordinates()
    ensures Token("x") == "{x}" && Token("y") == "{y}" && Token("z") == "{z}"
    ensures BraceFree("x") && BraceFree("y") && BraceFree("z") && OpenFree("/") && NotNested("")
  {
  }

  lemma ShowingIsNotNested(a: string, tail: string)
    requires BraceFree(a) && OpenFree(tail)
    ensures NotNested(Showing(a, tail))
  {
    hide NotNested, Token, OpenFree, BraceFree;
    TokensOfCoordinates();
    var y := Token("y") + "";
    TokenThenNotNested("y", "");
    TextThenNotNested("/", y);
    TokenThenNotNested("x", "/" + y);
    TextThenNotNested("/", Token("x") + ("/" + y));
    TokenThenNotNested("z", "/" + (Token("x") + ("/" + y)));
    TextThenNotNested("/", Token("z") + ("/" + (Token("x") + ("/" + y))));
    TextThenNotNested(tail, "/" + (Token("z") + ("/" + (Token("x") + ("/" + y)))));
    TokenThenNotNested(a, tail + ("/" + (Token("z") + ("/" + (Token("x") + ("/" + y))))));
  }

  lemma ShowingInjected(a: string, tail: string, t: Tile)
    requires BraceFree(a) && a !in XYZ && OpenFree(tail)
    ensures InjectString(t, Showing(a, tail)) == Token(a) + (tail + Printed(t))
  {
    hide Token, OpenFree, BraceFree, Itoa, Substitute, InjectString;
    TokensOfCoordinates();
    var env := Coordinates(t);
    InjectStringIsOnePass(t, Showing(a, tail), XYZ);
    var y := Token("y") + "";
    SubstituteNone(env);
    SubstituteHere("y", "", env);
    SubstituteSkips("/", y, env);
    SubstituteHere("x", "/" + y, env);
    SubstituteSkips("/", Token("x") + ("/" + y), env);
    SubstituteHere("z", "/" + (Token("x") + ("/" + y)), env);
    SubstituteSkips("/", Token("z") + ("/" + (Token("x") + ("/" + y))), env);
    SubstituteSkips(tail, "/" + (Token("z") + ("/" + (Token("x") + ("/" + y)))), env);
    SubstituteKeeps(a, tail + ("/" + (Token("z") + ("/" + (Token("x") + ("/" + y))))), env);
  }

  lemma SubstituteNone(env: map<string, string>)
    ensures Substitute("", env) == ""
  {
  }

  lemma PrintedIsOpenFree(t: Tile)
    ensures OpenFree(Printed(t))
  {
    hide Itoa;
    forall ch <- Printed(t) ensures ch != '{' {
      assert ch in "/" || ch in Itoa(t.zoom) || ch in Itoa(t.x) || ch in Itoa(t.y);
      if ch in Itoa(t.zoom) { NumeralChars(Itoa(t.zoom), ch); }
      if ch in Itoa(t.x) { NumeralChars(Itoa(t.x), ch); }
      if ch in Itoa(t.y) { NumeralChars(Itoa(t.y), ch); }
    }
  }

  // The request that has value v for a and w for b, as FillParamsMap puts it together.
  function TwoParams(a: string, v: string, b: string, w: string): map<string, string> {
    ParamsMap([Param(a, ""), Param(b, "")], map[a := v, b := w])
  }

  lemma TwoParamsAre(a: string, v: string, b: string, w: string)
    requires a != b && v != "" && w != ""
    ensures TwoParams(a, v, b, w) == map[a := v, b := w]
  {
    var (params, query) := ([Param(a, ""), Param(b, "")], map[a := v, b := w]);
    assert params[..1] == [Param(a, "")] && params[..1][..0] == [];
    assert ParamsMap(params[..1], query) == map[a := v] by { assert ParamsMap([], query) == map[]; }
  }

  // For every value that is not settled there are a template the configuration accepts, a second
  // parameter with a harmless value, and two orders that give every tile two different keys.
  lemma OrderMatters(a: string, v: string, w: string)
    returns (c: KeyConfig, b: string, req: Request, order: seq<string>, order': seq<string>)
    requires Admitted(a) && !Settled(a, v) && w != "" && OpenFree(w)
    ensures LawfulTemplate(c.template) && Admitted(b) && b != a
    ensures req.params == TwoParams(a, v, b, w) == map[a := v, b := w] && req.endpoint == ""
    ensures Orders(order, req.params) && Orders(order', req.params)
    ensures forall t :: KeyInOrder(c, req, t, order) != KeyInOrder(c, req, t, order')
  {
    hide Settled, LawfulTemplate, Contains, OpenFree, BraceFree, TwoParams;
    var tail;
    b, tail := TokenInside(a, v);
    c := KeyConfig(Showing(a, tail), false);
    req := Request(None, "", TwoParams(a, v, b, w));
    order, order' := [a, b], [b, a];
    assert v != "" by { EmptyIsSettled(a); }
    TwoParamsAre(a, v, b, w);
    ShowingIsLawful(a, tail);
    forall t ensures KeyInOrder(c, req, t, order) != KeyInOrder(c, req, t, order') {
      ShowingInjected(a, tail, t);
      TwoOrders(Token(a) + (tail + Printed(t)), a, v, b, w);
      TextIsOpenFree(tail, t);
      OrderShows(a, v, b, w, tail + Printed(t));
    }
  }

  lemma EmptyIsSettled(a: string)
    ensures Settled(a, "")
  {
  }

  lemma TextIsOpenFree(tail: string, t: Tile)
    requires OpenFree(tail)
    ensures OpenFree(tail + Printed(t))
  {
    PrintedIsOpenFree(t);
  }

  lemma TwoOrders(s: string, a: string, v: string, b: string, w: string)
    requires a != b
    ensures var params := map[a := v, b := w];
      && Sequentially(s, [a, b], params) == ReplaceAll(ReplaceAll(s, Token(a), v), Token(b), w)
      && Sequentially(s, [b, a], params) == ReplaceAll(ReplaceAll(s, Token(b), w), Token(a), v)
  {
    hide ReplaceAll, Token, Sequentially;
    var params := map[a := v, b := w];
    SequentiallyOneMore(s, [], a, params);
    SequentiallyOneMore(s, [] + [a], b, params);
    SequentiallyOneMore(s, [], b, params);
    SequentiallyOneMore(s, [] + [b], a, params);
    assert [a, b] == [] + [a] + [b] && [b, a] == [] + [b] + [a];
  }

  // A value leaves the key independent of the map's order, in every configuration and request,
  // exactly when it is settled.
  lemma OrderFreeIffSettled(a: string, v: string)
    requires Admitted(a)
    ensures OrderFree(a, v) <==> Settled(a, v)
  {
    if Settled(a, v) {
      SettledIsOrderFree(a, v);
    } else {
      hide Settled, LawfulTemplate, KeyInOrder, Orders, TwoParams;
      var c, b, req, order, order' := OrderMatters(a, v, "w");
      var t := Tile(0, 0, 0);
      LawfulPair(a, v, b, "w", req);
      assert KeyInOrder(c, req, t, order) != KeyInOrder(c, req, t, order');
    }
  }

  lemma LawfulPair(a: string, v: string, b: string, w: string, req: Request)
    requires Admitted(a) && Admitted(b) && a != b && v != "" && w != "" && OpenFree(w)
    requires req.params == map[a := v, b := w] && req.endpoint == ""
    ensures LawfulParams(req.params) && OthersOpenFree(a, req)
  {
  }
}
