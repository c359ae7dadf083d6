// strings.ReplaceAll on `{name}` tokens, and the one-pass substitution it is used to implement.

module Template {
  // strings.ReplaceAll for a pattern that is not empty: leftmost occurrences first, none
  // overlapping, nothing inserted is looked at again.
  function ReplaceAll(s: string, target: string, v: string): string
    requires target != ""
  {
    if s == "" then ""
    else if target <= s then v + ReplaceAll(s[|target|..], target, v)
    else [s[0]] + ReplaceAll(s[1..], target, v)
  }

  predicate IsBrace(ch: char) {
    ch == '{' || ch == '}'
  }

  predicate BraceFree(s: string) {
    forall ch <- s :: !IsBrace(ch)
  }

  predicate OpenFree(s: string) {
    '{' !in s
  }

  function Token(name: string): (t: string)
    ensures t != ""
  {
    "{" + name + "}"
  }

  function NextBrace(s: string): (i: nat)
    ensures i <= |s| && BraceFree(s[..i]) && (i < |s| ==> IsBrace(s[i]))
  {
    if s == "" || IsBrace(s[0]) then 0 else
      var i := NextBrace(s[1..]);
      assert s[..i + 1] == [s[0]] + s[1..][..i];
      i + 1
  }

  // s begins with `{name}` for a name without braces.
  predicate StartsToken(s: string) {
    s != "" && s[0] == '{' && var i := NextBrace(s[1..]); i < |s| - 1 && s[1..][i] == '}'
  }

  function TokenName(s: string): (name: string)
    requires StartsToken(s)
    ensures BraceFree(name) && |name| + 2 <= |s| && s == Token(name) + s[|name| + 2..]
  {
    s[1..][..NextBrace(s[1..])]
  }

  // One left-to-right pass: every token whose name has a value becomes the value; the rest stays.
  function Substitute(s: string, env: map<string, string>): string {
    if s == "" then ""
    else if StartsToken(s) && TokenName(s) in env then
      env[TokenName(s)] + Substitute(s[|TokenName(s)| + 2..], env)
    else [s[0]] + Substitute(s[1..], env)
  }

  // One ReplaceAll after the other.
  function Sequentially(s: string, names: seq<string>, env: map<string, string>): string
    requires forall n <- names :: n in env
  {
    if names == [] then s
    else ReplaceAll(Sequentially(s, names[..|names| - 1], env), Token(names[|names| - 1]), env[names[|names| - 1]])
  }

  lemma SequentiallyOneMore(s: string, names: seq<string>, name: string, env: map<string, string>)
    requires name in env && forall n <- names :: n in env
    ensures Sequentially(s, [], env) == s
    ensures Sequentially(s, names + [name], env) == ReplaceAll(Sequentially(s, names, env), Token(name), env[name])
  {
    assert (names + [name])[..|names|] == names;
  }

  // ---- ReplaceAll ---------------------------------------------------------------------------

  lemma ConcatAssociates(a: string, b: string, c: string)
    ensures (a + b) + c == a + (b + c)
  {
  }

  // No token {name} begins in v, whatever comes behind v: after each opening brace v goes on to
  // another brace, and that opens or ends a different name.
  predicate Skips(v: string, name: string) {
    v == "" ||
    (Skips(v[1..], name) &&
     (v[0] == '{' ==>
        var (rest, i) := (v[1..], NextBrace(v[1..]));
        i < |rest| && (rest[i] == '{' || rest[..i] != name)))
  }

  lemma {:induction false} OpenFreeSkips(v: string, name: string)
    requires OpenFree(v)
    ensures Skips(v, name)
  {
    if v != "" { OpenFreeSkips(v[1..], name); }
  }

  // A stretch in which no {name} begins is copied.
  lemma {:induction false} ReplaceSkips(u: string, s: string, name: string, v: string)
    requires Skips(u, name) && BraceFree(name)
    ensures ReplaceAll(u + s, Token(name), v) == u + ReplaceAll(s, Token(name), v)
  {
    if u == "" {
      assert u + s == s;
    } else {
      ReplaceSkips(u[1..], s, name, v);
      assert (u + s)[0] == u[0] && (u + s)[1..] == u[1..] + s;
      ConcatAssociates([u[0]], u[1..], ReplaceAll(s, Token(name), v));
      assert u == [u[0]] + u[1..];
      if u[0] == '{' {
        NoTokenAt(u[1..], s, name);
        SamePrefix('{', name + "}", u[1..] + s);
        assert Token(name) == ['{'] + (name + "}") && u + s == ['{'] + (u[1..] + s);
      }
    }
  }

  lemma NoTokenAt(u: string, s: string, name: string)
    requires BraceFree(name) && NextBrace(u) < |u|
    requires u[NextBrace(u)] == '{' || u[..NextBrace(u)] != name
    ensures !(name + "}" <= u + s)
  {
    var i := NextBrace(u);
    assert (u + s)[..i] == u[..i] && (u + s)[i] == u[i];
    NextBraceIs(u + s, i);
    NameThenBrace(name, u + s);
  }

  lemma NameThenBrace(name: string, s: string)
    requires BraceFree(name)
    ensures name + "}" <= s ==> NextBrace(s) == |name| && |name| < |s| && s[|name|] == '}' && s[..|name|] == name
  {
    if name + "}" <= s {
      assert s == (name + "}") + s[|name| + 1..];
      assert s[..|name|] == name && s[|name|] == '}';
      NextBraceIs(s, |name|);
    }
  }

  lemma BraceFreeUpTo(s: string, i: nat)
    requires i <= |s| && BraceFree(s[..i])
    ensures forall k :: 0 <= k < i ==> !IsBrace(s[k])
  {
    forall k | 0 <= k < i ensures !IsBrace(s[k]) { assert s[..i][k] == s[k]; }
  }

  lemma SamePrefix(ch: char, a: string, b: string)
    ensures [ch] + a <= [ch] + b <==> a <= b
  {
    if [ch] + a <= [ch] + b { PrefixTail([ch] + a, [ch] + b); }
  }

  lemma PrefixTail(a: string, b: string)
    requires a != "" && a <= b
    ensures a[1..] <= b[1..]
  {
  }

  lemma ReplaceHere(s: string, name: string, v: string)
    ensures ReplaceAll(Token(name) + s, Token(name), v) == v + ReplaceAll(s, Token(name), v)
  {
    assert (Token(name) + s)[|Token(name)|..] == s;
  }

  predicate Contains(s: string, t: string) {
    t <= s || (s != "" && Contains(s[1..], t))
  }

  lemma {:induction false} ContainsAt(s: string, u: string, t: string)
    ensures Contains(u + t + s, t)
  {
    if u == "" {
      assert u + t + s == t + s;
    } else {
      ContainsAt(s, u[1..], t);
      assert (u + t + s)[1..] == u[1..] + t + s;
    }
  }

  lemma {:induction false} ReplaceMissing(s: string, t: string, v: string)
    requires t != "" && !Contains(s, t)
    ensures ReplaceAll(s, t, v) == s
  {
    if s != "" { ReplaceMissing(s[1..], t, v); }
  }

  // ---- Substitute ---------------------------------------------------------------------------

  lemma NextBraceIs(s: string, i: nat)
    requires i <= |s| && BraceFree(s[..i]) && (i < |s| ==> IsBrace(s[i]))
    ensures NextBrace(s) == i
  {
    BraceFreeUpTo(s, i);
    BraceFreeUpTo(s, NextBrace(s));
  }

  // A string that begins with a token begins with no other token.
  lemma TokenIsUnique(n: string, s: string)
    requires BraceFree(n)
    ensures StartsToken(Token(n) + s) && TokenName(Token(n) + s) == n
    ensures (Token(n) + s)[|n| + 2..] == s
  {
    var t := Token(n) + s;
    assert t[1..] == n + "}" + s;
    assert t[1..][..|n|] == n;
    NextBraceIs(t[1..], |n|);
  }

  lemma SubstituteChar(ch: char, s: string, env: map<string, string>)
    requires ch != '{'
    ensures Substitute([ch] + s, env) == [ch] + Substitute(s, env)
  {
    assert ([ch] + s)[1..] == s;
  }

  lemma {:induction false} SubstituteSkips(u: string, s: string, env: map<string, string>)
    requires OpenFree(u)
    ensures Substitute(u + s, env) == u + Substitute(s, env)
  {
    hide Substitute;
    if u == "" {
      assert u + s == s;
    } else {
      SubstituteSkips(u[1..], s, env);
      SubstituteChar(u[0], u[1..] + s, env);
      assert u == [u[0]] + u[1..];
      ConcatAssociates([u[0]], u[1..], s);
      ConcatAssociates([u[0]], u[1..], Substitute(s, env));
    }
  }

  // A token without a value stays.
  lemma SubstituteKeeps(n: string, s: string, env: map<string, string>)
    requires BraceFree(n) && n !in env
    ensures Substitute(Token(n) + s, env) == Token(n) + Substitute(s, env)
  {
    var t := Token(n) + s;
    TokenIsUnique(n, s);
    assert t[1..] == (n + "}") + s;
    SubstituteSkips(n + "}", s, env);
    ConcatAssociates("{", n + "}", Substitute(s, env));
    assert Token(n) == "{" + (n + "}");
  }

  lemma SubstituteHere(n: string, s: string, env: map<string, string>)
    requires BraceFree(n) && n in env
    ensures Substitute(Token(n) + s, env) == env[n] + Substitute(s, env)
  {
    TokenIsUnique(n, s);
  }

  // ---- When one ReplaceAll substitutes one more name ----------------------------------------

  // Between an opening brace and the next closing one there is no other opening brace.
  predicate NotNested(s: string) {
    s == "" || (NotNested(s[1..]) && (s[0] == '{' ==> var i := NextBrace(s[1..]); i == |s| - 1 || s[1..][i] == '}'))
  }

  // The values are not empty, and no character of theirs occurs in {name}.
  predicate Apart(env: map<string, string>, name: string) {
    forall n <- env :: env[n] != "" && forall ch <- env[n] :: ch !in Token(name)
  }

  // Nothing that is substituted can complete, or become, a token {name}.
  predicate NoAccidents(s: string, env: map<string, string>, name: string) {
    (NotNested(s) && forall n <- env :: Skips(env[n], name)) || Apart(env, name)
  }

  // Templates made of text without opening braces and of tokens do not nest.
  lemma {:induction false} TextThenNotNested(u: string, s: string)
    requires OpenFree(u) && NotNested(s)
    ensures NotNested(u + s)
  {
    if u == "" {
      assert u + s == s;
    } else {
      TextThenNotNested(u[1..], s);
      assert (u + s)[0] == u[0] && (u + s)[1..] == u[1..] + s;
    }
  }

  lemma TokenThenNotNested(n: string, s: string)
    requires BraceFree(n) && NotNested(s)
    ensures NotNested(Token(n) + s)
  {
    var inner := (n + "}") + s;
    assert (Token(n) + s)[1..] == inner;
    TextThenNotNested(n + "}", s);
    assert inner[..|n|] == n && inner[|n|] == '}';
    NextBraceIs(inner, |n|);
  }

  lemma NotNestedSuffix(s: string, k: nat)
    requires NotNested(s) && k <= |s|
    ensures NotNested(s[k..])
  {
    if k > 0 {
      NotNestedSuffix(s[1..], k - 1);
      assert s[1..][k - 1..] == s[k..];
    }
  }

  lemma NoAccidentsSuffix(s: string, k: nat, env: map<string, string>, name: string)
    requires NoAccidents(s, env, name) && k <= |s|
    ensures NoAccidents(s[k..], env, name)
  {
    if NotNested(s) { NotNestedSuffix(s, k); }
  }

  lemma ValuesSkip(s: string, env: map<string, string>, name: string)
    requires NoAccidents(s, env, name)
    ensures forall n <- env :: Skips(env[n], name)
  {
    if Apart(env, name) {
      forall n <- env ensures Skips(env[n], name) {
        assert Token(name)[0] == '{';
        OpenFreeSkips(env[n], name);
      }
    }
  }

  // Text whose next brace is not a closing one never renders to the rest of a token, when values
  // share no character with it.
  lemma {:induction false} NoRestOfToken(s: string, env: map<string, string>, name: string, rest: string)
    requires Apart(env, name) && BraceFree(rest) && (forall ch <- rest :: ch in name)
    requires var i := NextBrace(s); i == |s| || s[i] == '{'
    ensures !(rest + "}" <= Substitute(s, env))
  {
    if s != "" {
      if StartsToken(s) && TokenName(s) in env {
        var v := env[TokenName(s)];
        assert Substitute(s, env)[0] == v[0] && v[0] in v;
        assert '}' in Token(name) by { assert Token(name)[|name| + 1] == '}'; }
        assert (rest + "}")[0] in Token(name) by {
          if rest != "" {
            assert rest[0] in name;
            InToken(name, rest[0]);
          }
        }
      } else if rest != "" && rest[0] == s[0] {
        assert rest[0] in rest;
        assert !IsBrace(s[0]);
        NoRestOfToken(s[1..], env, name, rest[1..]);
        assert rest + "}" == [rest[0]] + (rest[1..] + "}");
        SamePrefix(s[0], rest[1..] + "}", Substitute(s[1..], env));
      } else {
        assert Substitute(s, env)[0] == s[0];
        assert s[0] != '}';
        assert (rest + "}")[0] != s[0];
      }
    }
  }

  lemma InToken(name: string, ch: char)
    requires ch in name
    ensures ch in Token(name)
  {
    var i :| 0 <= i < |name| && name[i] == ch;
    assert Token(name)[i + 1] == ch;
  }

  // A literal opening brace does not begin a token {name} once the text after it is rendered.
  lemma NoTokenAppears(s: string, env: map<string, string>, name: string)
    requires s != "" && s[0] == '{' && !StartsToken(s) && BraceFree(name) && NoAccidents(s, env, name)
    ensures !(Token(name) <= Substitute(s, env))
  {
    var t := s[1..];
    if Apart(env, name) {
      NoRestOfToken(t, env, name, name);
    } else {
      NoClosingBrace(t, env, name);
    }
    SamePrefix('{', name + "}", Substitute(t, env));
    assert Token(name) == ['{'] + (name + "}");
  }

  lemma NoClosingBrace(t: string, env: map<string, string>, name: string)
    requires NextBrace(t) == |t|
    ensures !(name + "}" <= Substitute(t, env))
  {
    assert t[..|t|] == t;
    SubstituteSkips(t, "", env);
    assert t + "" == t;
    PrefixMembers(name + "}", t);
    assert (name + "}")[|name|] == '}';
    assert '}' in name + "}" && '}' !in t;
  }

  lemma PrefixMembers(a: string, b: string)
    ensures a <= b ==> forall ch <- a :: ch in b
  {
    if a <= b { assert b == a + b[|a|..]; }
  }

  // A token without a value, other than {name}.
  lemma OtherTokenStays(n: string, t: string, name: string)
    requires BraceFree(n) && BraceFree(name) && n != name
    ensures !(Token(name) <= Token(n) + t)
  {
    if Token(name) <= Token(n) + t {
      var rest := (Token(n) + t)[|Token(name)|..];
      assert Token(n) + t == Token(name) + rest;
      TokenIsUnique(n, t);
      TokenIsUnique(name, rest);
    }
  }

  // ReplaceAll of {name}, on text in which other names are already substituted, is the
  // substitution of one name more.
  lemma {:induction false} ReplaceToken(s: string, env: map<string, string>, name: string, v: string)
    requires BraceFree(name) && name !in env && NoAccidents(s, env, name)
    ensures ReplaceAll(Substitute(s, env), Token(name), v) == Substitute(s, env[name := v])
  {
    hide NoAccidents, Token;
    ValuesSkip(s, env, name);
    if StartsToken(s) {
      var n := TokenName(s);
      var rest := s[|n| + 2..];
      NoAccidentsSuffix(s, |n| + 2, env, name);
      ReplaceToken(rest, env, name, v);
      if n in env {
        SubstituteHere(n, rest, env);
        SubstituteHere(n, rest, env[name := v]);
        ReplaceSkips(env[n], Substitute(rest, env), name, v);
      } else if n == name {
        SubstituteKeeps(n, rest, env);
        SubstituteHere(n, rest, env[name := v]);
        ReplaceHere(Substitute(rest, env), name, v);
      } else {
        SubstituteKeeps(n, rest, env);
        SubstituteKeeps(n, rest, env[name := v]);
        OtherTokenStays(n, Substitute(rest, env), name);
        CopyToken(n, Substitute(rest, env), name, v);
      }
    } else if s != "" {
      NoAccidentsSuffix(s, 1, env, name);
      ReplaceToken(s[1..], env, name, v);
      if s[0] == '{' {
        NoTokenAppears(s, env, name);
      } else {
        OpenFreeSkips([s[0]], name);
        ReplaceSkips([s[0]], Substitute(s[1..], env), name, v);
      }
    }
  }

  // ReplaceAll copies a token it does not match.
  lemma CopyToken(n: string, t: string, name: string, v: string)
    requires BraceFree(n) && BraceFree(name) && !(Token(name) <= Token(n) + t)
    ensures ReplaceAll(Token(n) + t, Token(name), v) == Token(n) + ReplaceAll(t, Token(name), v)
  {
    assert (Token(n) + t)[1..] == (n + "}") + t;
    OpenFreeSkips(n + "}", name);
    ReplaceSkips(n + "}", t, name, v);
    ConcatAssociates("{", n + "}", ReplaceAll(t, Token(name), v));
    assert Token(n) == "{" + (n + "}");
  }

  // ---- Any order of replacements is the one pass --------------------------------------------

  function Restrict(env: map<string, string>, names: seq<string>): map<string, string> {
    map n | n in env && n in names :: env[n]
  }

  predicate Distinct(names: seq<string>) {
    forall i, j :: 0 <= i < j < |names| ==> names[i] != names[j]
  }

  lemma {:induction false} SequentiallyIsOnePass(s: string, start: map<string, string>, names: seq<string>,
                                                 env: map<string, string>)
    requires Distinct(names) && (forall n <- names :: n in env && BraceFree(n)) && start.Keys !! env.Keys
    requires forall n <- names :: NoAccidents(s, (start + env) - {n}, n)
    ensures Sequentially(Substitute(s, start), names, env) == Substitute(s, start + Restrict(env, names))
  {
    hide NoAccidents, Substitute, ReplaceAll, Token, BraceFree, Restrict, Distinct;
    RestrictOneMore(start, env, names);
    if names != [] {
      var (front, last) := (names[..|names| - 1], names[|names| - 1]);
      SequentiallyIsOnePass(s, start, front, env);
      RestrictOneMore(start, env, front);
      FewerAccidents(s, (start + env) - {last}, start + Restrict(env, front), last);
      ReplaceToken(s, start + Restrict(env, front), last, env[last]);
    }
  }

  lemma RestrictOneMore(start: map<string, string>, env: map<string, string>, names: seq<string>)
    requires Distinct(names) && (forall n <- names :: n in env) && start.Keys !! env.Keys
    ensures var soFar := start + Restrict(env, names);
            forall n <- soFar :: n in start + env && soFar[n] == (start + env)[n]
    ensures names == [] ==> start + Restrict(env, names) == start
    ensures names != [] ==>
      var (front, last) := (names[..|names| - 1], names[|names| - 1]);
      && Distinct(front) && (forall n <- front :: n in names) && last !in start + Restrict(env, front)
      && (start + Restrict(env, front))[last := env[last]] == start + Restrict(env, names)
  {
    if names != [] {
      var (front, last) := (names[..|names| - 1], names[|names| - 1]);
      assert names == front + [last];
      LastIsNew(front, last);
      hide Distinct;
      RestrictAppend(start, env, front, last);
    }
  }

  lemma LastIsNew(front: seq<string>, last: string)
    requires Distinct(front + [last])
    ensures Distinct(front) && last !in front
  {
    var names := front + [last];
    assert forall i :: 0 <= i < |front| ==> names[i] == front[i];
    assert names[|front|] == last;
  }

  lemma RestrictAppend(start: map<string, string>, env: map<string, string>, front: seq<string>, last: string)
    requires last in env
    ensures (start + Restrict(env, front))[last := env[last]] == start + Restrict(env, front + [last])
  {
    var (l, r) := ((start + Restrict(env, front))[last := env[last]], start + Restrict(env, front + [last]));
    forall n ensures n in l <==> n in r ensures n in l ==> l[n] == r[n] {
      assert n in front + [last] <==> n in front || n == last;
    }
  }

  lemma FewerAccidents(s: string, env: map<string, string>, env': map<string, string>, name: string)
    requires NoAccidents(s, env, name) && forall n <- env' :: n in env && env'[n] == env[n]
    ensures NoAccidents(s, env', name)
  {
  }

  lemma {:induction false} SubstituteNothing(s: string)
    ensures Substitute(s, map[]) == s
  {
    if s != "" { SubstituteNothing(s[1..]); }
  }
}
