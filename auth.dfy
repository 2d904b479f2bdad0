/**
  The bearer-token guard on mutating routes (`auth`): a simplified form of the
  `Authorization: Bearer <token>` check of section 2.1 of RFC 6750, against one
  secret taken from the process environment.
*/
module Auth {
  import opened Wrappers

  const MalformedHeader := "Missing or invalid Authorization header"
  const NotConfigured := "Server auth is not configured"
  const Unauthorized := "Unauthorized"

  /** `next()`, or a response with a status and an error text. */
  datatype Decision = Next | Reject(status: int, error: string)

  // ---------------------------------------------------------------------------
  // String.prototype.split with a one-character separator

  /** `s.split(sep)`: every segment between separators, empty ones included. */
  function Split(s: string, sep: char): (parts: seq<string>)
    ensures |parts| >= 1
    ensures forall i :: 0 <= i < |parts| ==> sep !in parts[i]
    ensures Join(parts, sep) == s
  {
    if s == [] then [[]]
    else
      var rest := Split(s[1..], sep);
      if s[0] == sep then
        assert [sep] + Join(rest, sep) == s;
        [[]] + rest
      else
        var parts := [[s[0]] + rest[0]] + rest[1..];
        assert parts[1..] == rest[1..];
        assert Join(parts, sep) == s by {
          if |rest| == 1 {
          } else {
            assert Join(rest, sep) == rest[0] + [sep] + Join(rest[1..], sep);
          }
        }
        parts
  }

  /** `parts.join(sep)`, the inverse of `Split`. */
  function Join(parts: seq<string>, sep: char): string
    requires |parts| >= 1
  {
    if |parts| == 1 then parts[0] else parts[0] + [sep] + Join(parts[1..], sep)
  }

  lemma {:induction false} SplitWord(w: string, sep: char)
    requires sep !in w
    ensures Split(w, sep) == [w]
  {
    if w != [] {
      SplitWord(w[1..], sep);
    }
  }

  /** A separator-free word followed by a separator is always the first segment. */
  lemma {:induction false} SplitAfterWord(w: string, t: string, sep: char)
    requires sep !in w
    ensures Split(w + [sep] + t, sep) == [w] + Split(t, sep)
  {
    if w == [] {
      assert w + [sep] + t == [sep] + t;
      assert ([sep] + t)[1..] == t;
    } else {
      var s := w + [sep] + t;
      assert s[0] == w[0] && s[1..] == w[1..] + [sep] + t;
      SplitAfterWord(w[1..], t, sep);
      assert [s[0]] + w[1..] == w;
    }
  }

  /** The first segment is the word `w` exactly when the string is `w` or starts with `w` and a separator. */
  lemma HeadSegment(s: string, w: string, sep: char)
    requires sep !in w
    ensures Split(s, sep)[0] == w <==> s == w || w + [sep] <= s
  {
    var parts := Split(s, sep);
    if parts[0] == w && |parts| > 1 {
      assert s == w + [sep] + Join(parts[1..], sep);
    }
    if s == w {
      SplitWord(w, sep);
    } else if w + [sep] <= s {
      var t := s[|w| + 1..];
      assert s == w + [sep] + t;
      SplitAfterWord(w, t, sep);
    }
  }

  /** The first segment is empty exactly when the string is empty or starts with a separator. */
  lemma HeadSegmentEmpty(s: string, sep: char)
    ensures Split(s, sep)[0] == [] <==> s == [] || s[0] == sep
  {
  }

  // ---------------------------------------------------------------------------
  // The guard

  /**
    The header carries the scheme `Bearer`, one space, and a token that does
    not start with another space: exactly the headers that `split(' ')` turns
    into the scheme `Bearer` and a non-empty token.
  */
  predicate BearerShaped(header: Option<string>): (b: bool)
    ensures b <==>
      (header.Some? && (var parts := Split(header.value, ' '); parts[0] == "Bearer" && |parts| >= 2 && parts[1] != ""))
  {
    var h := if header.Some? then header.value else "";
    BearerShapeOfSplit(h);
    header.Some? && |h| > 7 && h[..7] == "Bearer " && h[7] != ' '
  }

  /** A secret is configured when the environment variable is set and not empty. */
  predicate Configured(secret: Option<string>)
  {
    secret.Some? && secret.value != ""
  }

  /**
    The headers that open the door: "Bearer ", the secret, then the end of the
    header or a space. These are exactly the Bearer-shaped headers whose token,
    the second segment of `split(' ')`, equals a configured secret.
  */
  predicate PresentsSecret(header: Option<string>, secret: Option<string>): (b: bool)
    ensures b <==> Configured(secret) && BearerShaped(header) && Split(header.value, ' ')[1] == secret.value
  {
    var h := if header.Some? then header.value else "";
    var k := if secret.Some? then secret.value else "";
    TokenOfSplit(h, k);
    BearerShapeOfSplit(h);
    && Configured(secret) && ' ' !in secret.value
    && header.Some?
    && (header.value == "Bearer " + secret.value || "Bearer " + secret.value + " " <= header.value)
  }

  /** `auth`: the header as the request carries it (if at all), and the configured secret (if any). */
  function Authorize(header: Option<string>, secret: Option<string>): (d: Decision)
    ensures d == Reject(401, MalformedHeader) <==> !BearerShaped(header)
    ensures d == Reject(500, NotConfigured) <==> BearerShaped(header) && !Configured(secret)
    ensures d == Reject(401, Unauthorized) <==>
      BearerShaped(header) && Configured(secret) && !PresentsSecret(header, secret)
    ensures d.Next? <==> PresentsSecret(header, secret)
  {
    var h := if header.Some? then header.value else "";
    var parts := Split(h, ' ');
    BearerShapeOfSplit(h);
    TokenOfSplit(h, if secret.Some? then secret.value else "");
    var scheme := parts[0];
    var token := if |parts| >= 2 then Some(parts[1]) else None;
    if scheme != "Bearer" || token.None? || token.value == "" then
      Reject(401, MalformedHeader)
    else if secret.None? || secret.value == "" then
      Reject(500, NotConfigured)
    else if token.value != secret.value then
      Reject(401, Unauthorized)
    else
      Next
  }

  /** A string splits into the word `w` and a non-empty second segment exactly when it starts with `w`, a separator and a non-separator. */
  lemma SchemeThenSegment(h: string, w: string, sep: char)
    requires sep !in w
    ensures var parts := Split(h, sep);
      (parts[0] == w && |parts| >= 2 && parts[1] != []) <==>
      (|h| > |w| + 1 && h[..|w| + 1] == w + [sep] && h[|w| + 1] != sep)
  {
    var parts := Split(h, sep);
    var n := |w| + 1;
    HeadSegment(h, w, sep);
    if |h| >= n && h[..n] == w + [sep] {
      var t := h[n..];
      assert h == w + [sep] + t;
      SplitAfterWord(w, t, sep);
      HeadSegmentEmpty(t, sep);
    } else if parts[0] == w {
      assert h == w;
      SplitWord(h, sep);
    }
  }

  /** After `w` and a separator, the second segment is `k` exactly when `k` has no separator and ends the string or is followed by a separator. */
  lemma SegmentAfterScheme(h: string, w: string, k: string, sep: char)
    requires sep !in w
    ensures var parts := Split(h, sep);
      |h| >= |w| + 1 && h[..|w| + 1] == w + [sep] ==>
        |parts| >= 2 &&
        (parts[1] == k <==> sep !in k && (h == w + [sep] + k || w + [sep] + k + [sep] <= h))
  {
    var n := |w| + 1;
    if |h| < n || h[..n] != w + [sep] { return; }
    var t := h[n..];
    assert h == w + [sep] + t;
    SplitAfterWord(w, t, sep);
    if sep !in k {
      HeadSegment(t, k, sep);
      assert h == w + [sep] + k <==> t == k;
      assert w + [sep] + k + [sep] <= h <==> k + [sep] <= t;
    }
  }

  /** A header splits into the scheme `Bearer` and a non-empty token exactly when it is `BearerShaped`. */
  lemma BearerShapeOfSplit(h: string)
    ensures var parts := Split(h, ' ');
      (parts[0] == "Bearer" && |parts| >= 2 && parts[1] != "") <==>
      (|h| > 7 && h[..7] == "Bearer " && h[7] != ' ')
  {
    SchemeThenSegment(h, "Bearer", ' ');
    assert "Bearer" + [' '] == "Bearer ";
  }

  /** After `Bearer `, the token is the secret `k` exactly when `k` has no space and the header is `Bearer k`, possibly followed by a space and more. */
  lemma TokenOfSplit(h: string, k: string)
    ensures var parts := Split(h, ' ');
      |h| >= 7 && h[..7] == "Bearer " ==>
        |parts| >= 2 &&
        (parts[1] == k <==> ' ' !in k && (h == "Bearer " + k || "Bearer " + k + " " <= h))
  {
    SegmentAfterScheme(h, "Bearer", k, ' ');
    assert "Bearer" + [' '] == "Bearer ";
  }
}
