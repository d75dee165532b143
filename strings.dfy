/** Python string and path primitives that the pipeline's decisions rest on:
    `str.split` on one character, `str.splitlines`, `str.strip`, decimal
    rendering of an integer, and `pathlib.PurePosixPath`'s `name` and `suffix`. */
module Strings {
  import opened Wrappers

  /** Where a string is cut: at one given character (`str.split(c)`), or at
      every character `str.splitlines` treats as a line boundary. */
  datatype Delimiter = Exactly(c: char) | LineBreak

  predicate IsLineBreak(c: char) {
    c in {'\n', '\r', '\U{0B}', '\U{0C}', '\U{1C}', '\U{1D}', '\U{1E}', '\U{85}', '\U{2028}', '\U{2029}'}
  }

  predicate Cuts(d: Delimiter, c: char) {
    match d
    case Exactly(x) => c == x
    case LineBreak => IsLineBreak(c)
  }

  /** The pieces between delimiters, in order; like Python's `str.split`,
      the empty string yields one empty piece and two adjacent delimiters
      yield an empty piece between them. */
  function Split(s: string, d: Delimiter): (pieces: seq<string>)
    ensures |pieces| >= 1
    ensures forall i :: 0 <= i < |pieces| ==> |pieces[i]| <= |s|
    ensures forall i, k :: 0 <= i < |pieces| && 0 <= k < |pieces[i]| ==> !Cuts(d, pieces[i][k])
    decreases |s|
  {
    if |s| == 0 then [""]
    else if Cuts(d, s[0]) then [""] + Split(s[1..], d)
    else
      var rest := Split(s[1..], d);
      [[s[0]] + rest[0]] + rest[1..]
  }

  /** `sep.join(pieces)` for a one-character separator. */
  function Join(pieces: seq<string>, sep: char): string
    requires |pieces| >= 1
  {
    if |pieces| == 1 then pieces[0] else pieces[0] + [sep] + Join(pieces[1..], sep)
  }

  /** Joining the pieces of a split with the separator gives the string back. */
  lemma {:induction false} JoinSplit(s: string, sep: char)
    ensures Join(Split(s, Exactly(sep)), sep) == s
    decreases |s|
  {
    if |s| > 0 {
      var rest := Split(s[1..], Exactly(sep));
      JoinSplit(s[1..], sep);
      if s[0] != sep && |rest| > 1 {
        assert Join(rest, sep) == rest[0] + [sep] + Join(rest[1..], sep);
        var pieces := Split(s, Exactly(sep));
        assert pieces[1..] == rest[1..];
      }
    }
  }

  /** A string without delimiters is a single piece. */
  lemma {:induction false} SplitWithoutDelimiter(s: string, d: Delimiter)
    requires forall k :: 0 <= k < |s| ==> !Cuts(d, s[k])
    ensures Split(s, d) == [s]
    decreases |s|
  {
    if |s| > 0 {
      SplitWithoutDelimiter(s[1..], d);
      assert [s[0]] + s[1..] == s;
    }
  }

  /** One step of `Split`: the first character either cuts or joins the
      first piece of the rest. */
  lemma SplitCons(x: char, t: string, d: Delimiter)
    ensures Split([x] + t, d)
         == if Cuts(d, x) then [""] + Split(t, d) else [[x] + Split(t, d)[0]] + Split(t, d)[1..]
  {
    assert ([x] + t)[0] == x && ([x] + t)[1..] == t;
  }

  /** Splitting distributes over a delimiter between two strings. */
  lemma {:induction false} SplitAround(a: string, c: char, b: string, d: Delimiter)
    requires Cuts(d, c)
    ensures Split(a + [c] + b, d) == Split(a, d) + Split(b, d)
    decreases |a|
  {
    if |a| == 0 {
      assert a + [c] + b == [c] + b;
      SplitCons(c, b, d);
    } else {
      var x, tail := a[0], a[1..];
      assert a == [x] + tail;
      assert a + [c] + b == [x] + (tail + [c] + b);
      SplitAround(tail, c, b, d);
      SplitCons(x, tail + [c] + b, d);
      SplitCons(x, tail, d);
      if Cuts(d, x) {
        ConsAppend([""], Split(tail, d), Split(b, d));
      } else {
        FirstPieceAppend([x], Split(tail, d), Split(b, d));
      }
    }
  }

  /** Concatenation regroups. */
  lemma ConsAppend<T>(h: seq<T>, p: seq<T>, r: seq<T>)
    ensures h + (p + r) == (h + p) + r
  {
  }

  /** Extending the first piece commutes with appending further pieces. */
  lemma FirstPieceAppend(x: string, p: seq<string>, r: seq<string>)
    requires |p| >= 1
    ensures [x + (p + r)[0]] + (p + r)[1..] == ([x + p[0]] + p[1..]) + r
  {
    assert (p + r)[0] == p[0];
    assert (p + r)[1..] == p[1..] + r;
  }

  // ---------------------------------------------------------------------------
  // str.strip()

  /** The characters for which Python's `str.isspace` holds, and so the ones
      `str.strip()` removes. Every line boundary counts as whitespace, and
      no character of a stamped file name does. */
  function IsSpace(c: char): (space: bool)
    ensures IsLineBreak(c) ==> space
    ensures space ==> !IsHexDigit(c) && c != '-' && c != '.' && c != '/'
  {
    || ('\t' <= c <= '\r')
    || ('\U{1C}' <= c <= ' ')
    || c == '\U{85}' || c == '\U{A0}' || c == '\U{1680}'
    || ('\U{2000}' <= c <= '\U{200A}')
    || c == '\U{2028}' || c == '\U{2029}' || c == '\U{202F}' || c == '\U{205F}' || c == '\U{3000}'
  }

  /** Number of whitespace characters at the start of `s`. */
  function LeadingSpaces(s: string): (n: nat)
    ensures n <= |s|
    ensures forall k :: 0 <= k < n ==> IsSpace(s[k])
    ensures n < |s| ==> !IsSpace(s[n])
  {
    if |s| == 0 || !IsSpace(s[0]) then 0 else 1 + LeadingSpaces(s[1..])
  }

  /** Number of whitespace characters at the end of `s`. */
  function TrailingSpaces(s: string): (n: nat)
    ensures n <= |s|
    ensures forall k :: |s| - n <= k < |s| ==> IsSpace(s[k])
    ensures n < |s| ==> !IsSpace(s[|s| - 1 - n])
  {
    if |s| == 0 || !IsSpace(s[|s| - 1]) then 0 else 1 + TrailingSpaces(s[..|s| - 1])
  }

  /** `s.strip()`: the longest slice of `s` that neither starts nor ends with
      whitespace, obtained by removing only whitespace from both ends. */
  function Strip(s: string): (r: string)
    ensures LeadingSpaces(s) + |r| <= |s|
    ensures r == s[LeadingSpaces(s)..LeadingSpaces(s) + |r|]
    ensures forall k :: LeadingSpaces(s) + |r| <= k < |s| ==> IsSpace(s[k])
    ensures r != "" ==> !IsSpace(r[0]) && !IsSpace(r[|r| - 1])
    ensures r == "" <==> forall k :: 0 <= k < |s| ==> IsSpace(s[k])
  {
    var t := s[LeadingSpaces(s)..];
    t[..|t| - TrailingSpaces(t)]
  }

  /** A string that neither starts nor ends with whitespace is its own strip. */
  lemma StripOfTrimmed(s: string)
    requires s != "" && !IsSpace(s[0]) && !IsSpace(s[|s| - 1])
    ensures Strip(s) == s
  {
    assert LeadingSpaces(s) == 0;
    assert TrailingSpaces(s) == 0;
  }

  /** Stripping twice removes nothing more. */
  lemma StripIdempotent(s: string)
    ensures Strip(Strip(s)) == Strip(s)
  {
    if Strip(s) != "" {
      StripOfTrimmed(Strip(s));
    }
  }

  // ---------------------------------------------------------------------------
  // str(int(...))

  predicate IsDigit(c: char) {
    '0' as int <= c as int <= '9' as int
  }

  /** Decimal rendering of a natural number, as `str(n)` gives it. */
  function NatToString(n: nat): (s: string)
    ensures |s| >= 1
    ensures forall k :: 0 <= k < |s| ==> IsDigit(s[k])
    ensures |s| > 1 ==> s[0] != '0'
  {
    if n < 10 then [(n + '0' as int) as char]
    else NatToString(n / 10) + [((n % 10) + '0' as int) as char]
  }

  /** The number a string of decimal digits denotes. */
  function DigitsValue(s: string): nat
    requires forall k :: 0 <= k < |s| ==> IsDigit(s[k])
  {
    if |s| == 0 then 0
    else
      assert IsDigit(s[|s| - 1]);
      DigitsValue(s[..|s| - 1]) * 10 + (s[|s| - 1] as int - '0' as int)
  }

  /** Rendering loses nothing: the digits read back as the number. */
  lemma {:induction false} NatToStringRoundTrip(n: nat)
    ensures DigitsValue(NatToString(n)) == n
  {
    if n >= 10 {
      var s := NatToString(n);
      assert s[..|s| - 1] == NatToString(n / 10);
      NatToStringRoundTrip(n / 10);
    }
  }

  // ---------------------------------------------------------------------------
  // Generated file names: "<prefix><seconds>-<32 hex><extension>"

  predicate IsHexDigit(c: char) {
    '0' <= c <= '9' || 'a' <= c <= 'f'
  }

  /** What `uuid.uuid4().hex` returns: 32 lower-case hexadecimal digits. */
  predicate IsHexToken(t: string) {
    |t| == 32 && forall k :: 0 <= k < |t| ==> IsHexDigit(t[k])
  }

  /** The name `f"{prefix}{int(time.time())}-{uuid.uuid4().hex}{extension}"`,
      with the clock reading and the random token given. */
  function StampedName(prefix: string, seconds: nat, token: string, extension: string): (name: string)
    ensures var digits := NatToString(seconds);
      && |name| == |prefix| + |digits| + 1 + |token| + |extension|
      && name[..|prefix|] == prefix
      && name[|prefix|..|prefix| + |digits|] == digits
      && name[|prefix| + |digits|] == '-'
      && name[|name| - |extension|..] == extension
      && name[|name| - |extension| - |token|..|name| - |extension|] == token
  {
    prefix + NatToString(seconds) + "-" + token + extension
  }

  // ---------------------------------------------------------------------------
  // pathlib.PurePosixPath: name and suffix

  /** Drop the components a POSIX path parser ignores: empty ones (from
      repeated or trailing slashes) and ".". */
  function Significant(parts: seq<string>): (r: seq<string>)
    ensures forall i :: 0 <= i < |r| ==> r[i] != "" && r[i] != "."
  {
    if |parts| == 0 then []
    else if parts[0] == "" || parts[0] == "." then Significant(parts[1..])
    else [parts[0]] + Significant(parts[1..])
  }

  lemma {:induction false} SignificantAppend(a: seq<string>, b: seq<string>)
    ensures Significant(a + b) == Significant(a) + Significant(b)
  {
    if |a| > 0 {
      assert (a + b)[1..] == a[1..] + b;
      SignificantAppend(a[1..], b);
    } else {
      assert a + b == b;
    }
  }

  /** `PurePosixPath(p).name`: the last significant component, or "" when
      there is none. It never contains a slash. */
  function Name(p: string): (r: string)
    ensures '/' !in r
  {
    var parts := Significant(Split(p, Exactly('/')));
    if |parts| == 0 then ""
    else
      var last := parts[|parts| - 1];
      assert forall k :: 0 <= k < |last| ==> last[k] != '/' by {
        SignificantPiecesHaveNoSlash(Split(p, Exactly('/')));
      }
      last
  }

  lemma {:induction false} SignificantPiecesHaveNoSlash(parts: seq<string>)
    requires forall i, k :: 0 <= i < |parts| && 0 <= k < |parts[i]| ==> parts[i][k] != '/'
    ensures forall i, k :: 0 <= i < |Significant(parts)| && 0 <= k < |Significant(parts)[i]| ==>
      Significant(parts)[i][k] != '/'
  {
    if |parts| > 0 {
      SignificantPiecesHaveNoSlash(parts[1..]);
    }
  }

  /** A plain file name (no slash, not empty, not ".") is its own name. */
  lemma NameOfPlain(name: string)
    requires '/' !in name && name != "" && name != "."
    ensures Name(name) == name
  {
    SplitWithoutDelimiter(name, Exactly('/'));
    assert Significant([name]) == [name];
  }

  /** A plain file name (no slash, not empty, not ".") under any directory
      is that path's name. */
  lemma NameOfChild(dir: string, name: string)
    requires '/' !in name && name != "" && name != "."
    ensures Name(dir + "/" + name) == name
  {
    SplitAround(dir, '/', name, Exactly('/'));
    SplitWithoutDelimiter(name, Exactly('/'));
    SignificantAppend(Split(dir, Exactly('/')), [name]);
    assert Significant([name]) == [name];
  }

  /** The position of the last occurrence of `c` in `s` (`str.rfind`). */
  function LastIndex(s: string, c: char): (r: Option<nat>)
    ensures r.None? <==> c !in s
    ensures r.Some? ==> r.value < |s| && s[r.value] == c && c !in s[r.value + 1..]
  {
    if |s| == 0 then None
    else if s[|s| - 1] == c then Some(|s| - 1)
    else
      var r := LastIndex(s[..|s| - 1], c);
      assert s == s[..|s| - 1] + [s[|s| - 1]];
      if r.Some? then
        assert s[r.value + 1..] == s[..|s| - 1][r.value + 1..] + [s[|s| - 1]];
        r
      else r
  }

  /** `PurePosixPath(p).suffix`: from the last dot of the name, when that dot
      is neither the first nor the last character of the name; else "". */
  function Suffix(p: string): (r: string)
    ensures r != "" ==> |r| >= 2 && r[0] == '.' && '.' !in r[1..] && '/' !in r
  {
    var n := Name(p);
    match LastIndex(n, '.')
    case None => ""
    case Some(i) =>
      if 0 < i < |n| - 1 then
        assert forall k :: i <= k < |n| ==> n[k] in n;
        n[i..]
      else ""
  }

  /** The last dot of `stem + ext` starts `ext` when the stem has no dot. */
  lemma LastDotOfExtension(stem: string, ext: string)
    requires '.' !in stem && ext != "" && ext[0] == '.' && '.' !in ext[1..]
    ensures LastIndex(stem + ext, '.') == Some(|stem|)
  {
    var s := stem + ext;
    assert forall j :: 0 <= j < |stem| ==> s[j] == stem[j] && s[j] != '.';
    assert forall j :: |stem| < j < |s| ==> s[j] == ext[1..][j - |stem| - 1] && s[j] != '.';
    assert s[|stem|] == '.';
    assert s[|stem|] in s;
  }

  /** A name made of a dotless, slashless, non-empty stem and a suffix-shaped
      extension (possibly empty) has that extension as its suffix. */
  lemma SuffixOfStemAndExtension(stem: string, ext: string)
    requires stem != "" && '/' !in stem && '.' !in stem && '/' !in ext
    requires ext == "" || (|ext| >= 2 && ext[0] == '.' && '.' !in ext[1..])
    ensures Suffix(stem + ext) == ext
  {
    var s := stem + ext;
    assert '/' !in s by {
      forall k | 0 <= k < |s| ensures s[k] != '/' {
        if k < |stem| { assert s[k] == stem[k]; } else { assert s[k] == ext[k - |stem|]; }
      }
    }
    assert s[0] == stem[0] && stem[0] in stem;
    NameOfPlain(s);
    if ext == "" {
      assert s == stem;
    } else {
      LastDotOfExtension(stem, ext);
      assert s[|stem|..] == ext;
    }
  }

  /** A stamped name has no slash and is neither empty nor ".". */
  lemma StampedNameIsPlain(prefix: string, seconds: nat, token: string, extension: string)
    requires '/' !in prefix && '/' !in extension && IsHexToken(token)
    ensures var s := StampedName(prefix, seconds, token, extension);
      '/' !in s && s != "" && s != "."
  {
    var digits := NatToString(seconds);
    var s := StampedName(prefix, seconds, token, extension);
    assert s == prefix + digits + "-" + token + extension;
    assert '/' !in digits by {
      forall k | 0 <= k < |digits| ensures digits[k] != '/' { assert IsDigit(digits[k]); }
    }
    assert '/' !in token by {
      forall k | 0 <= k < |token| ensures token[k] != '/' { assert IsHexDigit(token[k]); }
    }
    assert s[|prefix| + |digits|] == '-';
  }
}
