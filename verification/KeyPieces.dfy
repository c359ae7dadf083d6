// What a key reads like, piece by piece.

module KeyPieces {
  import opened Quadtree
  import opened Template
  import opened CacheKeys
  import opened KeySeparation
  import opened UncleanKeys

  // A template is made of plain text and of names in braces.
  datatype Piece = Text(text: string) | Name(name: string)

  function Spell(pieces: seq<Piece>): string {
    if pieces == [] then "" else
      (match pieces[0] case Text(s) => s case Name(n) => "{" + n + "}") + Spell(pieces[1..])
  }

  // What a piece becomes: plain text stays, and so does a name nobody gives a value.
  function Fill(c: KeyConfig, req: Request, t: Tile, p: Piece): string {
    match p
    case Text(s) => s
    case Name(n) =>
      if n == "x" then Itoa(t.x) else if n == "y" then Itoa(t.y) else if n == "z" then Itoa(t.zoom)
      else if n == "e" && c.hasEndpoint then req.endpoint
      else if n in req.params then req.params[n]
      else "{" + n + "}"
  }

  function FillAll(c: KeyConfig, req: Request, t: Tile, pieces: seq<Piece>): string {
    if pieces == [] then "" else Fill(c, req, t, pieces[0]) + FillAll(c, req, t, pieces[1..])
  }

  // Text has no opening brace, a name neither brace.
  predicate Plain(p: Piece) {
    match p case Text(s) => OpenFree(s) case Name(n) => BraceFree(n)
  }

  lemma {:induction false} PiecesFilled(pieces: seq<Piece>, c: KeyConfig, req: Request, t: Tile)
    requires (forall p <- pieces :: Plain(p)) && forall n <- req.params :: n !in ["e", "z", "x", "y"]
    ensures Substitute(Spell(pieces), Fixed(c, req) + Coordinates(t)) == FillAll(c, req, t, pieces)
  {
    hide Substitute, BraceFree, OpenFree, Itoa;
    var env := Fixed(c, req) + Coordinates(t);
    if pieces == [] {
      EmptySubstitutes(env);
    } else {
      PiecesFilled(pieces[1..], c, req, t);
      assert Plain(pieces[0]);
      match pieces[0]
      case Text(s) => SubstituteSkips(s, Spell(pieces[1..]), env);
      case Name(n) =>
        if n in env {
          SubstituteHere(n, Spell(pieces[1..]), env);
        } else {
          SubstituteKeeps(n, Spell(pieces[1..]), env);
        }
    }
  }

  lemma EmptySubstitutes(env: map<string, string>)
    ensures Substitute("", env) == ""
  {
  }

  // The keys of a tile for a clean request: the template's text, with each coordinate, the endpoint and
  // each parameter that has a value in the place of its name.
  lemma KeyReads(pieces: seq<Piece>, c: KeyConfig, req: Request, t: Tile, key: string)
    requires c.template == Spell(pieces) && (forall p <- pieces :: Plain(p)) && Clean(c, req)
    ensures IsKeyOf(c, req, t, key) <==> key == FillAll(c, req, t, pieces)
  {
    hide IsKeyOf, Substitute, Spell, FillAll, Fixed, Coordinates, NotNested;
    CleanKey(c, req, t, key);
    PiecesFilled(pieces, c, req, t);
  }

  // Under the default template, whatever the request and the order.
  lemma DefaultKey(c: KeyConfig, req: Request, t: Tile, key: string)
    requires c.template == "{z}/{x}/{y}"
    ensures IsKeyOf(c, req, t, key) <==> key == Itoa(t.zoom) + "/" + Itoa(t.x) + "/" + Itoa(t.y)
  {
    hide IsKeyOf, LayoutOf, Print, Itoa, KeyInOrder, GoodTemplate;
    var fields := [Field("z", "/"), Field("x", "/"), Field("y", "")];
    DefaultIsGood();
    DefaultPrints(t);
    if IsKeyOf(c, req, t, key) { KeyOfThree(c, req, t, key, fields); }
    var order := SomeOrder(req.params);
    var some := KeyInOrder(c, req, t, order);
    OneOrderIsAKey(c, req, t, order);
    KeyOfThree(c, req, t, some, fields);
  }

  lemma DefaultPrints(t: Tile)
    ensures Print(t, [Field("z", "/"), Field("x", "/"), Field("y", "")]) ==
            Itoa(t.zoom) + "/" + Itoa(t.x) + "/" + Itoa(t.y)
  {
    hide Print, Itoa;
    PrintThree(t, [Field("z", "/"), Field("x", "/"), Field("y", "")]);
    FiveParts(Itoa(t.zoom), "/", Itoa(t.x), "/", Itoa(t.y));
  }

  lemma FiveParts(a: string, b: string, c: string, d: string, e: string)
    ensures a + (b + (c + (d + (e + "")))) == a + b + c + d + e
  {
  }

  lemma OneOrderIsAKey(c: KeyConfig, req: Request, t: Tile, order: seq<string>)
    requires Orders(order, req.params)
    ensures IsKeyOf(c, req, t, KeyInOrder(c, req, t, order))
  {
  }
}
