// Cache keys: tile coordinates, the endpoint and query parameters filled into a template
// (tile/tile.go, helpers/helpers.go).

module CacheKeys {
  import opened Wrappers
  import opened Quadtree
  import opened Template

  // ---- strconv.Itoa -------------------------------------------------------------------------

  predicate IsDigit(ch: char) {
    '0' <= ch <= '9'
  }

  predicate AllDigits(s: string) {
    forall ch <- s :: IsDigit(ch)
  }

  function Digits(n: nat): (s: string)
    ensures s != "" && AllDigits(s)
  {
    var d := [('0' as int + n % 10) as char];
    if n < 10 then d else Digits(n / 10) + d
  }

  // A minus sign or a digit, then digits.
  predicate IsNumeral(s: string) {
    s != "" && (s[0] == '-' || IsDigit(s[0])) && AllDigits(s[1..])
  }

  function Itoa(n: int): (s: string)
    ensures IsNumeral(s)
  {
    if n < 0 then "-" + Digits(-n) else Digits(n)
  }

  // The value of a string of digits.
  function Value(s: string): nat
    requires AllDigits(s)
  {
    if s == "" then 0 else
      assert s[|s| - 1] in s;
      10 * Value(s[..|s| - 1]) + (s[|s| - 1] as int - '0' as int)
  }

  // Decimal, most significant digit first.
  lemma ItoaSpelled()
    ensures Itoa(0) == "0" && Itoa(7) == "7" && Itoa(120) == "120" && Itoa(-4095) == "-4095"
  {
    assert Digits(12) == "12" && Digits(409) == "409" by { assert Digits(40) == "40"; }
  }

  lemma {:induction false} ValueOfDigits(n: nat)
    ensures Value(Digits(n)) == n
  {
    var s := Digits(n);
    assert s[|s| - 1] as int - '0' as int == n % 10;
    if n >= 10 {
      ValueOfDigits(n / 10);
      assert s[..|s| - 1] == Digits(n / 10);
    }
  }

  lemma ItoaIsInjective(a: int, b: int)
    requires Itoa(a) == Itoa(b)
    ensures a == b
  {
    ValueOfDigits(if a < 0 then -a else a);
    ValueOfDigits(if b < 0 then -b else b);
    assert a < 0 ==> Itoa(a)[0] == '-' && Itoa(a)[1..] == Digits(-a);
    assert b < 0 ==> Itoa(b)[0] == '-' && Itoa(b)[1..] == Digits(-b);
    assert a >= 0 ==> IsDigit(Itoa(a)[0]);
    assert b >= 0 ==> IsDigit(Itoa(b)[0]);
  }

  // ---- Tile coordinates ---------------------------------------------------------------------

  function InjectString(t: Tile, base: string): string {
    var base := ReplaceAll(base, "{x}", Itoa(t.x));
    var base := ReplaceAll(base, "{y}", Itoa(t.y));
    ReplaceAll(base, "{z}", Itoa(t.zoom))
  }

  function Coordinates(t: Tile): (printed: map<string, string>)
    ensures forall n <- XYZ :: n in printed
  {
    map["x" := Itoa(t.x), "y" := Itoa(t.y), "z" := Itoa(t.zoom)]
  }

  const XYZ := ["x", "y", "z"]

  lemma CoordinatesAreApart(t: Tile, name: string)
    requires name in XYZ
    ensures Apart(Coordinates(t), name) && BraceFree(name)
  {
    assert Token("x") == "{x}" && Token("y") == "{y}" && Token("z") == "{z}";
    forall n <- Coordinates(t), ch <- Coordinates(t)[n] ensures ch !in Token(name) {
      NumeralChars(Coordinates(t)[n], ch);
    }
  }

  lemma NumeralChars(s: string, ch: char)
    requires IsNumeral(s) && ch in s
    ensures ch == '-' || IsDigit(ch)
  {
    assert s == [s[0]] + s[1..];
  }

  lemma InjectStringIsSequential(t: Tile, base: string)
    ensures InjectString(t, base) == Sequentially(base, XYZ, Coordinates(t))
  {
    hide ReplaceAll, Itoa, Sequentially;
    var env := Coordinates(t);
    SequentiallyOneMore(base, [], "x", env);
    SequentiallyOneMore(base, [] + ["x"], "y", env);
    SequentiallyOneMore(base, [] + ["x"] + ["y"], "z", env);
    assert XYZ == [] + ["x"] + ["y"] + ["z"];
    assert Token("x") == "{x}" && Token("y") == "{y}" && Token("z") == "{z}";
  }

  // For any template at all, the three replacements in any order are one simultaneous
  // substitution: no inserted number can make or break another token.
  lemma InjectStringIsOnePass(t: Tile, base: string, order: seq<string>)
    requires Distinct(order) && forall n :: n in order <==> n in XYZ
    ensures InjectString(t, base) == Substitute(base, Coordinates(t))
    ensures Sequentially(base, order, Coordinates(t)) == InjectString(t, base)
  {
    hide Substitute, ReplaceAll, Apart, BraceFree, Itoa;
    forall n <- XYZ { CoordinatesAreApart(t, n); }
    InjectStringIsSequential(t, base);
    SubstituteNothing(base);
    CoordinatesInOrder(t, base, order);
    CoordinatesInOrder(t, base, XYZ);
  }

  lemma StillApart(base: string, env: map<string, string>, order: seq<string>)
    requires forall n <- order :: Apart(env, n)
    ensures forall n <- order :: NoAccidents(base, env - {n}, n)
  {
    hide NotNested, Skips;
  }

  lemma CoordinatesInOrder(t: Tile, base: string, order: seq<string>)
    requires Distinct(order) && forall n :: n in order <==> n in XYZ
    ensures Sequentially(base, order, Coordinates(t)) == Substitute(base, Coordinates(t))
  {
    hide Substitute, ReplaceAll, Apart, BraceFree, Itoa, Sequentially;
    var env := Coordinates(t);
    forall n <- order { CoordinatesAreApart(t, n); }
    SubstituteNothing(base);
    assert map[] + env == env;
    assert forall n <- order :: NoAccidents(base, env - {n}, n) by { StillApart(base, env, order); }
    SequentiallyIsOnePass(base, map[], order, env);
    assert map[] + Restrict(env, order) == env;
  }

  // ---- Query parameters ---------------------------------------------------------------------

  datatype Param = Param(name: string, default: string)

  // ctx.Query(name, default): an empty or missing value becomes the default.
  function Query(query: map<string, string>, p: Param): string {
    if p.name in query && query[p.name] != "" then query[p.name] else p.default
  }

  // The parameters that have a value, a later one of the same name taking precedence.
  function ParamsMap(params: seq<Param>, query: map<string, string>): map<string, string> {
    if params == [] then map[] else
      var before := ParamsMap(params[..|params| - 1], query);
      var p := params[|params| - 1];
      if Query(query, p) != "" then before[p.name := Query(query, p)] else before
  }

  method FillParamsMap(params: seq<Param>, query: map<string, string>) returns (values: map<string, string>)
    ensures values == ParamsMap(params, query)
    ensures forall p <- params | p.name in query && query[p.name] != "" ::
              p.name in values && values[p.name] == query[p.name]
    ensures forall name <- values :: exists p <- params :: p.name == name
  {
    values := map[];
    for k := 0 to |params|
      invariant values == ParamsMap(params[..k], query)
    {
      var val := Query(query, params[k]);
      if val != "" {
        values := values[params[k].name := val];
      }
      assert params[..k + 1][..k] == params[..k];
    }
    assert params[..|params|] == params;
    forall p <- params | p.name in query && query[p.name] != ""
      ensures p.name in values && values[p.name] == query[p.name]
    {
      QueryWins(params, query, p);
    }
    forall name <- values ensures exists p <- params :: p.name == name {
      var p := ParamsMapNames(params, query, name);
    }
  }

  // A value in the request's query is the one that counts, whatever the defaults.
  lemma {:induction false} QueryWins(params: seq<Param>, query: map<string, string>, p: Param)
    requires p in params && p.name in query && query[p.name] != ""
    ensures p.name in ParamsMap(params, query) && ParamsMap(params, query)[p.name] == query[p.name]
  {
    var n := |params| - 1;
    if params[n].name != p.name {
      assert p in params[..n];
      QueryWins(params[..n], query, p);
    }
  }

  // Without one, the default counts; of several for the same name, the last that is not empty.
  lemma {:induction false} DefaultCounts(params: seq<Param>, query: map<string, string>, i: nat)
    requires i < |params| && params[i].default != ""
    requires params[i].name !in query || query[params[i].name] == ""
    requires forall j :: i < j < |params| && params[j].name == params[i].name ==> params[j].default == ""
    ensures params[i].name in ParamsMap(params, query)
    ensures ParamsMap(params, query)[params[i].name] == params[i].default
  {
    if i < |params| - 1 { DefaultCounts(params[..|params| - 1], query, i); }
  }

  // With neither, there is no value.
  lemma {:induction false} NoValue(params: seq<Param>, query: map<string, string>, name: string)
    requires name !in query || query[name] == ""
    requires forall p <- params :: p.name == name ==> p.default == ""
    ensures name !in ParamsMap(params, query)
  {
    if params != [] {
      var n := |params| - 1;
      assert params[n] in params;
      NoValue(params[..n], query, name);
    }
  }

  // With the distinct names the configuration insists on, each parameter that has a value is in
  // the map with its own value, and the others are not.
  lemma {:induction false} ParamsMapHolds(params: seq<Param>, query: map<string, string>, i: nat)
    requires i < |params| && forall j, k :: 0 <= j < k < |params| ==> params[j].name != params[k].name
    ensures var (p, values) := (params[i], ParamsMap(params, query));
            if Query(query, p) == "" then p.name !in values else p.name in values && values[p.name] == Query(query, p)
    decreases |params|
  {
    hide Query;
    var front := params[..|params| - 1];
    if i < |params| - 1 {
      ParamsMapHolds(front, query, i);
      assert params[i].name != params[|params| - 1].name;
    } else if params[i].name in ParamsMap(front, query) {
      var p := ParamsMapNames(front, query, params[i].name);
    }
  }

  // Only configured parameters are in the map, and none with an empty value.
  lemma {:induction false} ParamsMapNames(params: seq<Param>, query: map<string, string>, name: string)
    returns (p: Param)
    requires name in ParamsMap(params, query)
    ensures p in params && p.name == name && ParamsMap(params, query)[name] == Query(query, p) != ""
  {
    hide Query;
    var last := params[|params| - 1];
    if last.name == name && Query(query, last) != "" {
      p := last;
    } else {
      p := ParamsMapNames(params[..|params| - 1], query, name);
    }
  }

  // ---- BuildCacheKey ------------------------------------------------------------------------

  datatype KeyConfig = KeyConfig(template: string, hasEndpoint: bool)

  // What a request carries: its tile, if the path has one; its endpoint; its parameter values.
  datatype Request = Request(tile: Option<Tile>, endpoint: string, params: map<string, string>)

  function FillEndpoint(c: KeyConfig, req: Request, key: string): string {
    if c.hasEndpoint && Contains(key, "{e}") then ReplaceAll(key, "{e}", req.endpoint) else key
  }

  // The key when the parameters are ranged over in this order.
  function KeyInOrder(c: KeyConfig, req: Request, t: Tile, order: seq<string>): string
    requires forall n <- order :: n in req.params
  {
    Sequentially(FillEndpoint(c, req, InjectString(t, c.template)), order, req.params)
  }

  ghost predicate Orders(order: seq<string>, params: map<string, string>) {
    Distinct(order) && forall n :: n in order <==> n in params
  }

  // The key of t under some order of the parameters.
  ghost predicate IsKeyOf(c: KeyConfig, req: Request, t: Tile, key: string) {
    exists order :: Orders(order, req.params) && key == KeyInOrder(c, req, t, order)
  }

  // Everything that is filled in besides the coordinates.
  function Fixed(c: KeyConfig, req: Request): map<string, string> {
    req.params + if c.hasEndpoint then map["e" := req.endpoint] else map[]
  }

  // The key, in one pass.
  function CacheKey(c: KeyConfig, req: Request, t: Tile): string {
    Substitute(c.template, Fixed(c, req) + Coordinates(t))
  }

  // The template does not nest braces, names are without braces and not reserved, and in nothing
  // that is filled in does the token of a parameter still to be filled in begin.
  predicate Clean(c: KeyConfig, req: Request) {
    && NotNested(c.template)
    && (forall n <- req.params :: BraceFree(n) && n !in ["e", "z", "x", "y"])
    && (forall n <- req.params :: c.hasEndpoint ==> Skips(req.endpoint, n))
    && (forall n <- req.params, n' <- req.params :: n' != n ==> Skips(req.params[n'], n))
  }

  method BuildCacheKey(c: KeyConfig, req: Request, tileOverride: Option<Tile>)
    returns (key: Option<string>, ghost order: seq<string>)
    ensures key.None? <==> tileOverride.None? && req.tile.None?
    ensures Orders(order, req.params)
    ensures key.Some? ==> var t := if tileOverride.Some? then tileOverride.value else req.tile.value;
              && key.value == KeyInOrder(c, req, t, order)
              && (Clean(c, req) ==> key.value == CacheKey(c, req, t))
  {
    order := SomeOrder(req.params);
    var currentTile;
    if tileOverride.None? {
      if req.tile.None? { return None, order; }
      currentTile := req.tile.value;
    } else {
      currentTile := tileOverride.value;
    }
    var text := InjectString(currentTile, c.template);
    if c.hasEndpoint && Contains(text, "{e}") {
      text := ReplaceAll(text, "{e}", req.endpoint);
    }
    ghost var start := text;
    order := [];
    var rest := req.params.Keys;
    while rest != {}
      invariant rest <= req.params.Keys && Distinct(order) && forall n :: n in order <==> n in req.params.Keys - rest
      invariant text == Sequentially(start, order, req.params)
    {
      var param :| param in rest;
      text := ReplaceAll(text, Token(param), req.params[param]);
      SequentiallyOneMore(start, order, param, req.params);
      DistinctOneMore(order, param);
      order := order + [param];
      rest := rest - {param};
    }
    if Clean(c, req) { AnyOrderIsOnePass(c, req, currentTile, order); }
    key := Some(text);
  }

  lemma DistinctOneMore(order: seq<string>, name: string)
    requires Distinct(order) && name !in order
    ensures Distinct(order + [name])
  {
  }

  lemma SomeOrder(params: map<string, string>) returns (order: seq<string>)
    ensures Orders(order, params)
  {
    order := [];
    var rest := params.Keys;
    while rest != {}
      invariant rest <= params.Keys && Distinct(order) && forall n :: n in order <==> n in params.Keys - rest
    {
      var param :| param in rest;
      DistinctOneMore(order, param);
      order := order + [param];
      rest := rest - {param};
    }
  }

  // The same key for every order of the parameters: the one-pass substitution.
  lemma AnyOrderIsOnePass(c: KeyConfig, req: Request, t: Tile, order: seq<string>)
    requires Clean(c, req) && Orders(order, req.params)
    ensures KeyInOrder(c, req, t, order) == CacheKey(c, req, t)
  {
    hide NotNested, Substitute, ReplaceAll, Itoa, Sequentially, BraceFree, Skips, NoAccidents;
    InjectStringIsOnePass(t, c.template, XYZ);
    EndpointIsOnePass(c, req, t);
    var env := WithEndpoint(c, req, t);
    assert env + Restrict(req.params, order) == Fixed(c, req) + Coordinates(t) by { SameFilling(c, req, t, order); }
    hide Coordinates, Fixed, Clean, WithEndpoint, Restrict;
    forall n <- order ensures NoAccidents(c.template, (env + req.params) - {n}, n) {
      NothingInTheWay(c, req, t, n);
    }
    SequentiallyIsOnePass(c.template, env, order, req.params);
  }

  lemma SameFilling(c: KeyConfig, req: Request, t: Tile, order: seq<string>)
    requires (forall n <- req.params :: n !in ["e", "z", "x", "y"]) && forall n :: n in order <==> n in req.params
    ensures WithEndpoint(c, req, t) + Restrict(req.params, order) == Fixed(c, req) + Coordinates(t)
    ensures WithEndpoint(c, req, t).Keys !! req.params.Keys
  {
    hide Itoa;
  }

  // What is filled in before the parameters are.
  function WithEndpoint(c: KeyConfig, req: Request, t: Tile): map<string, string> {
    Coordinates(t) + if c.hasEndpoint then map["e" := req.endpoint] else map[]
  }

  lemma NothingInTheWay(c: KeyConfig, req: Request, t: Tile, n: string)
    requires Clean(c, req) && n in req.params
    ensures NoAccidents(c.template, (WithEndpoint(c, req, t) + req.params) - {n}, n)
  {
    hide NotNested, Itoa, Skips, BraceFree, OpenFree;
    CoordinatesAreOpenFree(t);
    forall m <- Coordinates(t) { OpenFreeSkips(Coordinates(t)[m], n); }
  }

  lemma CoordinatesAreOpenFree(t: Tile)
    ensures forall n <- Coordinates(t) :: OpenFree(Coordinates(t)[n])
  {
    forall n <- Coordinates(t), ch <- Coordinates(t)[n] ensures ch != '{' {
      NumeralChars(Coordinates(t)[n], ch);
    }
  }

  lemma EndpointIsOnePass(c: KeyConfig, req: Request, t: Tile)
    requires NotNested(c.template)
    ensures FillEndpoint(c, req, Substitute(c.template, Coordinates(t)))
        == Substitute(c.template, WithEndpoint(c, req, t))
  {
    hide NotNested, Substitute, ReplaceAll, Itoa, OpenFree, Skips;
    var text := Substitute(c.template, Coordinates(t));
    assert Token("e") == "{e}" && BraceFree("e");
    CoordinatesAreOpenFree(t);
    forall m <- Coordinates(t) { OpenFreeSkips(Coordinates(t)[m], "e"); }
    if c.hasEndpoint {
      ReplaceToken(c.template, Coordinates(t), "e", req.endpoint);
      assert Coordinates(t)["e" := req.endpoint] == Coordinates(t) + map["e" := req.endpoint];
      if !Contains(text, "{e}") { ReplaceMissing(text, "{e}", req.endpoint); }
    } else {
      assert Coordinates(t) + map[] == Coordinates(t);
    }
  }
}
