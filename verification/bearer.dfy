/** How the resource service reads an `Authorization` header: it must start
    with "Bearer ", and the token is the second field of the header split on
    single spaces. The middleware and the authenticator parse it the same way. */
module BearerHeader {
  import opened Wrappers

  const Prefix: string := "Bearer "

  /** The header is present and starts with "Bearer " (an empty header is
      falsy in Python and fails the same test). */
  predicate HasBearerPrefix(h: Option<string>) {
    h.Some? && Prefix <= h.value
  }

  /** Python's `s.split(" ")`: split at every single space, keeping empty
      fields, so the result is never empty. The first field is the longest
      space-free prefix of `s`. */
  function Split(s: string): (parts: seq<string>)
    ensures |parts| >= 1
    ensures forall k :: 0 <= k < |parts| ==> ' ' !in parts[k]
    ensures parts[0] <= s && (|parts[0]| == |s| || s[|parts[0]|] == ' ')
    decreases |s|
  {
    if |s| == 0 then [""]
    else
      var rest := Split(s[1..]);
      if s[0] == ' ' then [""] + rest
      else [[s[0]] + rest[0]] + rest[1..]
  }

  /** Python's `" ".join(parts)`. */
  function Join(parts: seq<string>): string
    requires |parts| >= 1
    decreases |parts|
  {
    if |parts| == 1 then parts[0] else parts[0] + " " + Join(parts[1..])
  }

  /** Splitting loses nothing: joining the fields back gives the header. */
  lemma {:induction false} JoinSplit(s: string)
    ensures Join(Split(s)) == s
    decreases |s|
  {
    if |s| > 0 {
      JoinSplit(s[1..]);
      var rest := Split(s[1..]);
      if s[0] == ' ' {
        assert Split(s) == [""] + rest;
        assert ([""] + rest)[1..] == rest;
        assert s == " " + s[1..];
      } else {
        var parts := [[s[0]] + rest[0]] + rest[1..];
        assert Split(s) == parts;
        if |rest| == 1 {
          assert s == [s[0]] + s[1..];
        } else {
          assert parts[1..] == rest[1..];
          assert Join(rest) == rest[0] + " " + Join(rest[1..]);
          assert s == [s[0]] + s[1..];
        }
      }
    }
  }

  /** A space-free word followed by a space becomes the first field, and the
      rest is split on its own. */
  lemma {:induction false} SplitAfterWord(w: string, t: string)
    requires ' ' !in w
    ensures Split(w + " " + t) == [w] + Split(t)
    decreases |w|
  {
    if |w| == 0 {
      assert w + " " + t == " " + t;
      assert (" " + t)[1..] == t;
    } else {
      SplitAfterWord(w[1..], t);
      assert (w + " " + t)[1..] == w[1..] + " " + t;
      assert [w[0]] + w[1..] == w;
    }
  }

  /** The token: `header.split(" ")[1]`. It always exists once the prefix
      matched, and it is the longest space-free run right after "Bearer ". */
  function BearerToken(h: string): (token: string)
    requires Prefix <= h
    ensures Prefix + token <= h
    ensures ' ' !in token
    ensures |h| == |Prefix| + |token| || h[|Prefix| + |token|] == ' '
  {
    assert h == "Bearer" + " " + h[|Prefix|..];
    SplitAfterWord("Bearer", h[|Prefix|..]);
    Split(h)[1]
  }

  /** The three properties of `BearerToken` pin it down: no other string has
      them, so the token is the field between the first and second space. */
  lemma {:induction false} BearerTokenUnique(h: string, t: string)
    requires Prefix <= h
    requires Prefix + t <= h && ' ' !in t
    requires |h| == |Prefix| + |t| || h[|Prefix| + |t|] == ' '
    ensures t == BearerToken(h)
  {
    var b := BearerToken(h);
    var n := |Prefix|;
    assert |t| == |b|;
    assert forall k :: 0 <= k < |t| ==> t[k] == h[n + k] == b[k];
  }

  /** For example, a header carrying a trailing field yields only the token. */
  lemma {:induction false} TrailingFieldIgnored()
    ensures BearerToken("Bearer abc def") == "abc"
  {
    var h := "Bearer abc def";
    assert Prefix + "abc" <= h;
    assert h[|Prefix| + 3] == ' ';
    BearerTokenUnique(h, "abc");
  }
}
