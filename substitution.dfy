/** Replacement of %var% tokens in incoming chat text before it is stored. */
module Substitution {

  datatype Option<T> = None | Some(value: T)

  /** The game lookups the resolver uses, which lie outside this model:
      keyBoundTo(var) is the printable name of the key bound to the binding
      named var, or None when that binding is unknown (the input-code lookup
      followed by its conversion to a string); playerName is the local
      player's name. */
  datatype Resolver = Resolver(keyBoundTo: string -> Option<string>, playerName: string)

  function LowerAscii(c: char): char
  {
    if 'A' <= c <= 'Z' then (c as int + 32) as char else c
  }

  /** Case-insensitive comparison, assumed to fold ASCII letters only. */
  predicate EqualsIgnoringCase(a: string, b: string)
  {
    |a| == |b| && forall i :: 0 <= i < |a| ==> LowerAscii(a[i]) == LowerAscii(b[i])
  }

  /** The resolver knows nothing called v. */
  predicate Misses(game: Resolver, v: string)
  {
    game.keyBoundTo(v).None? && !EqualsIgnoringCase(v, "playerName")
  }

  /** getSubstVarVal: a key binding's key name in brackets, else the player
      name for %playerName%, else the token itself, percent signs included. */
  function GetSubstVarVal(game: Resolver, v: string): (r: string)
    ensures game.keyBoundTo(v).Some? ==> |r| >= 2 && r[0] == '[' && r[|r| - 1] == ']'
    ensures game.keyBoundTo(v).Some? ==> r == "[" + game.keyBoundTo(v).value + "]"
    ensures game.keyBoundTo(v).None? && EqualsIgnoringCase(v, "playerName") ==> r == game.playerName
    ensures Misses(game, v) ==> r == "%" + v + "%"
  {
    match game.keyBoundTo(v)
    case Some(keyName) => "[" + keyName + "]"
    case None => if EqualsIgnoringCase(v, "playerName") then game.playerName else "%" + v + "%"
  }

  /** The meaning of substitution, read from the left: a character other
      than % is kept; a % opens a token that the next % closes, and the
      token is replaced by what the resolver gives before reading on after
      it; a % with no partner keeps everything from it on. */
  function Substitute(game: Resolver, s: string): (r: string)
    ensures '%' !in s ==> r == s
    decreases |s|
  {
    if s == [] then []
    else if s[0] != '%' then [s[0]] + Substitute(game, s[1..])
    else Token(game, s[1..], [])
  }

  /** Reading a token whose text so far is name, with rest still unread. */
  function Token(game: Resolver, rest: string, name: string): string
    decreases |rest|
  {
    if rest == [] then "%" + name
    else if rest[0] == '%' then GetSubstVarVal(game, name) + Substitute(game, rest[1..])
    else Token(game, rest[1..], name + [rest[0]])
  }

  /** Token text without % is read into the token's name. */
  lemma {:induction false} TokenReadsName(game: Resolver, v: string, rest: string, name: string)
    requires '%' !in v
    ensures Token(game, v + rest, name) == Token(game, rest, name + v)
    decreases |v|
  {
    if v == [] {
      assert v + rest == rest;
      assert name + v == name;
    } else {
      assert v[0] in v;
      assert (v + rest)[1..] == v[1..] + rest;
      assert '%' !in v[1..] by { assert forall c :: c in v[1..] ==> c in v; }
      TokenReadsName(game, v[1..], rest, name + [v[0]]);
      assert name + [v[0]] + v[1..] == name + v;
    }
  }

  /** Text without % is copied unchanged in front of whatever follows. */
  lemma {:induction false} SubstitutePlainPrefix(game: Resolver, p: string, t: string)
    requires '%' !in p
    ensures Substitute(game, p + t) == p + Substitute(game, t)
    decreases |p|
  {
    if p == [] {
      assert p + t == t;
    } else {
      assert p[0] in p;
      assert (p + t)[0] == p[0] && (p + t)[1..] == p[1..] + t;
      calc {
        Substitute(game, p + t);
        [p[0]] + Substitute(game, p[1..] + t);
        { SubstitutePlainPrefix(game, p[1..], t); }
        [p[0]] + (p[1..] + Substitute(game, t));
        { assert p == [p[0]] + p[1..]; }
        p + Substitute(game, t);
      }
    }
  }

  /** Text without any % is left exactly as it is. */
  lemma TextWithoutPercentIsUnchanged(game: Resolver, p: string)
    requires '%' !in p
    ensures Substitute(game, p) == p
  {
    assert p + [] == p;
    SubstitutePlainPrefix(game, p, []);
  }

  /** A complete token is replaced by the resolver's value and scanning
      resumes after it: the value itself is never scanned for tokens, even
      when it contains %. */
  lemma ResolvedValueIsNotRescanned(game: Resolver, v: string, rest: string)
    requires '%' !in v
    ensures Substitute(game, "%" + v + "%" + rest) == GetSubstVarVal(game, v) + Substitute(game, rest)
  {
    var s := "%" + v + "%" + rest;
    assert s[1..] == v + ("%" + rest);
    TokenReadsName(game, v, "%" + rest, []);
    assert [] + v == v;
    assert ("%" + rest)[1..] == rest;
  }

  /** A token the resolver misses is kept verbatim. */
  lemma MissKeepsToken(game: Resolver, v: string, rest: string)
    requires '%' !in v && Misses(game, v)
    ensures Substitute(game, "%" + v + "%" + rest) == "%" + v + "%" + Substitute(game, rest)
  {
    ResolvedValueIsNotRescanned(game, v, rest);
  }

  /** A % with no closing partner leaves everything from it on untouched. */
  lemma UnterminatedTokenIsKept(game: Resolver, t: string)
    requires '%' !in t
    ensures Substitute(game, "%" + t) == "%" + t
  {
    var s := "%" + t;
    assert s[1..] == t + [];
    TokenReadsName(game, t, [], []);
    assert [] + t == t;
  }

  /** Text holding a single unmatched % comes back unchanged. */
  lemma SingleUnmatchedPercentIsKept(game: Resolver, p: string, t: string)
    requires '%' !in p && '%' !in t
    ensures Substitute(game, p + "%" + t) == p + "%" + t
  {
    assert p + "%" + t == p + ("%" + t);
    SubstitutePlainPrefix(game, p, "%" + t);
    UnterminatedTokenIsKept(game, t);
  }

  /** A %playerName% token after plain text greets the local player by
      name, when no key binding has that name. */
  lemma GreetsPlayerByName(game: Resolver, greeting: string, v: string)
    requires '%' !in greeting && v == "playerName" && game.keyBoundTo(v) == None
    ensures Substitute(game, greeting + "%" + v + "%") == greeting + game.playerName
  {
    assert '%' !in v;
    assert greeting + "%" + v + "%" == greeting + ("%" + v + "%" + []);
    SubstitutePlainPrefix(game, greeting, "%" + v + "%" + []);
    ResolvedValueIsNotRescanned(game, v, []);
    assert EqualsIgnoringCase(v, "playerName");
  }

  /** substitueVars: the working copy is scanned left to right; on a closing %
      the token is replaced in place and the index is moved to the end of the
      inserted value. The index is a size_t in the source; the adjustment may
      pass below zero there and wrap, but the value it reaches after the
      loop's increment is the same as the unbounded one used here. */
  method SubstituteVars(game: Resolver, str: string) returns (s: string)
    ensures s == Substitute(game, str)
  {
    s := str;
    var inside := false;
    var startPos: nat := 0;
    var i: int := 0;
    ghost var done: nat := 0;   // s[..done] is final; s[done..] is still to be substituted
    while i < |s|
      invariant 0 <= i <= |s|
      invariant done == if inside then startPos - 1 else i
      invariant inside ==> 1 <= startPos <= i && s[done] == '%'
      invariant inside ==> forall k :: startPos <= k < i ==> s[k] != '%'
      invariant ScanInvariant(game, str, s, done)
      decreases |s| - i
    {
      if s[i] == '%' {
        if !inside {
          startPos := i + 1;
          inside := true;
        } else {
          var endPos := i - startPos;   // the token's length
          inside := false;
          var v := s[startPos..startPos + endPos];
          var val := GetSubstVarVal(game, v);
          ghost var before := s;
          s := s[..startPos - 1] + val + s[startPos - 1 + endPos + 2..];
          ReplaceToken(game, str, before, done, i, val, s);
          i := i + |val| - |v| - 2;
          done := i + 1;
        }
      } else if !inside {
        PlainStep(game, str, s, i);
        done := i + 1;
      }
      i := i + 1;
    }
    if inside {
      UnterminatedAtEnd(game, str, s, done);
    }
  }

  /** The loop's invariant: s[..done] is the substituted text of what has
      been read, and substituting the rest of s completes the result. */
  ghost predicate ScanInvariant(game: Resolver, str: string, s: string, done: nat)
  {
    done <= |s| && Substitute(game, str) == s[..done] + Substitute(game, s[done..])
  }

  /** Scanning past a character other than % keeps the loop's invariant. */
  lemma PlainStep(game: Resolver, str: string, s: string, i: nat)
    requires i < |s| && s[i] != '%'
    requires ScanInvariant(game, str, s, i)
    ensures ScanInvariant(game, str, s, i + 1)
  {
    assert s[i..][1..] == s[i + 1..];
    assert s[..i + 1] == s[..i] + [s[i]];
  }

  /** Replacing the token between the % at x and the % at i by its value
      in place, and resuming the scan right after the value, keeps the
      loop's invariant. */
  lemma ReplaceToken(game: Resolver, str: string, s: string, x: nat, i: nat, val: string, s': string)
    requires x < i < |s| && s[x] == '%' && s[i] == '%'
    requires forall k :: x < k < i ==> s[k] != '%'
    requires ScanInvariant(game, str, s, x)
    requires val == GetSubstVarVal(game, s[x + 1..i])
    requires s' == s[..x] + val + s[i + 1..]
    ensures ScanInvariant(game, str, s', x + |val|)
  {
    assert '%' !in s[x + 1..i];
    TokenStep(game, s, x, i);
  }

  /** The token between the % at x and the % at i is replaced by its value. */
  lemma TokenStep(game: Resolver, s: string, x: nat, i: nat)
    requires x < i < |s| && s[x] == '%' && s[i] == '%' && '%' !in s[x + 1..i]
    ensures Substitute(game, s[x..]) == GetSubstVarVal(game, s[x + 1..i]) + Substitute(game, s[i + 1..])
  {
    assert s[x..] == "%" + s[x + 1..i] + "%" + s[i + 1..];
    ResolvedValueIsNotRescanned(game, s[x + 1..i], s[i + 1..]);
  }

  /** A token still open when the scan ends is kept with all that follows. */
  lemma UnterminatedAtEnd(game: Resolver, str: string, s: string, x: nat)
    requires x < |s| && s[x] == '%'
    requires forall k :: x < k < |s| ==> s[k] != '%'
    requires ScanInvariant(game, str, s, x)
    ensures Substitute(game, str) == s
  {
    assert '%' !in s[x + 1..];
    assert s[x..] == "%" + s[x + 1..];
    UnterminatedTokenIsKept(game, s[x + 1..]);
  }
}
