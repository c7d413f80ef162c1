/** Small vocabulary shared by the models. */
module Prelude {

  datatype Option<+T> = None | Some(value: T)

  /** The source's thrown errors, where only the fact that one was thrown matters. */
  datatype Outcome<+T> = Ok(result: T) | Thrown

  /** `parts.join(separator)`. */
  function Join(parts: seq<string>, separator: string): string {
    if parts == [] then ""
    else if |parts| == 1 then parts[0]
    else parts[0] + separator + Join(parts[1..], separator)
  }

  /** Joining puts the separator between consecutive parts, and nowhere else. */
  lemma {:induction false} JoinMeans(parts: seq<string>, last: string, separator: string)
    ensures Join([], separator) == "" && Join([last], separator) == last
    ensures parts != [] ==> Join(parts + [last], separator) == Join(parts, separator) + separator + last
  {
    if |parts| > 1 {
      var head, rest := parts[0], Join(parts[1..], separator);
      JoinMeans(parts[1..], last, separator);
      assert (parts + [last])[1..] == parts[1..] + [last];
      assert head + separator + (rest + separator + last) == head + separator + rest + separator + last;
    } else if |parts| == 1 {
      assert (parts + [last])[1..] == [last];
    }
  }

  /** `s.split(mark)`. */
  function Split(s: string, mark: char): (r: seq<string>)
    ensures r != []
  {
    if s == "" then [""]
    else if s[0] == mark then [""] + Split(s[1..], mark)
    else var rest := Split(s[1..], mark); [[s[0]] + rest[0]] + rest[1..]
  }

  lemma {:induction false} SplitPiece(piece: string, s: string, mark: char)
    requires mark !in piece
    ensures Split(piece + s, mark) == [piece + Split(s, mark)[0]] + Split(s, mark)[1..]
  {
    var tail := Split(s, mark);
    if piece == "" {
      assert piece + s == s && piece + tail[0] == tail[0] && tail == [tail[0]] + tail[1..];
    } else {
      assert (piece + s)[1..] == piece[1..] + s;
      SplitPiece(piece[1..], s, mark);
      assert [piece[0]] + (piece[1..] + tail[0]) == piece + tail[0];
    }
  }

  /** A piece that ends with the mark is split off. */
  lemma SplitOff(piece: string, rest: string, mark: char)
    requires mark !in piece
    ensures Split(piece + [mark] + rest, mark) == [piece] + Split(rest, mark)
  {
    SplitPiece(piece, [mark] + rest, mark);
    assert ([mark] + rest)[1..] == rest && piece + "" == piece;
    assert piece + [mark] + rest == piece + ([mark] + rest);
  }

  lemma {:induction false} SplitJoined(pieces: seq<string>, mark: char)
    requires pieces != [] && forall i | 0 <= i < |pieces| :: mark !in pieces[i]
    ensures Split(Join(pieces, [mark]), mark) == pieces
  {
    if |pieces| == 1 {
      SplitPiece(pieces[0], "", mark);
      assert pieces[0] + "" == pieces[0];
    } else {
      var first, rest := pieces[0], pieces[1..];
      SplitJoined(rest, mark);
      SplitOff(first, Join(rest, [mark]), mark);
      assert pieces == [first] + rest;
    }
  }

  predicate StartsWith(s: string, prefix: string) {
    |prefix| <= |s| && s[..|prefix|] == prefix
  }

  /** What `\s` matches in a JavaScript regular expression. */
  predicate IsSpace(c: char) {
    || '\U{0009}' <= c <= '\U{000D}' || c == ' ' || c == '\U{00A0}' || c == '\U{1680}'
    || '\U{2000}' <= c <= '\U{200A}' || c == '\U{2028}' || c == '\U{2029}' || c == '\U{202F}'
    || c == '\U{205F}' || c == '\U{3000}' || c == '\U{FEFF}'
  }

  /** `s.trim()`. */
  function Trim(s: string): string
    decreases |s|
  {
    if s != "" && IsSpace(s[0]) then Trim(s[1..])
    else if s != "" && IsSpace(s[|s| - 1]) then Trim(s[..|s| - 1])
    else s
  }

  /** Trimming cuts off the white space at both ends, and nothing else. */
  lemma {:induction false} TrimMeans(s: string) returns (i: nat, j: nat)
    ensures i <= j <= |s| && Trim(s) == s[i..j]
    ensures forall k | 0 <= k < i || j <= k < |s| :: IsSpace(s[k])
    ensures i < j ==> !IsSpace(s[i]) && !IsSpace(s[j - 1])
    decreases |s|
  {
    if s != "" && IsSpace(s[0]) {
      var a, b := TrimMeans(s[1..]);
      assert s[1..][a..b] == s[a + 1..b + 1];
      forall k | 0 <= k < a + 1 || b + 1 <= k < |s| ensures IsSpace(s[k]) {
        assert k > 0 ==> s[k] == s[1..][k - 1];
      }
      i, j := a + 1, b + 1;
    } else if s != "" && IsSpace(s[|s| - 1]) {
      i, j := TrimMeans(s[..|s| - 1]);
      assert s[..|s| - 1][i..j] == s[i..j];
      forall k | 0 <= k < i || j <= k < |s| ensures IsSpace(s[k]) {
        assert k < |s| - 1 ==> s[k] == s[..|s| - 1][k];
      }
    } else {
      i, j := 0, |s|;
    }
  }

  /** Some character is no white space. */
  predicate NotBlank(s: string) {
    exists c | c in s :: !IsSpace(c)
  }

  /** Text is not blank exactly when something is left of it after trimming. */
  lemma NotBlankIsTrimmed(s: string)
    ensures NotBlank(s) <==> |Trim(s)| > 0
  {
    var i, j := TrimMeans(s);
    assert |Trim(s)| == j - i;
    if i < j {
      assert s[i] in s;
    }
  }

  predicate IsDigit(c: char) {
    '0' <= c <= '9'
  }

  /** A number written in decimal. */
  function Decimal(n: nat): string {
    if n < 10 then ['0' + n as char] else Decimal(n / 10) + ['0' + (n % 10) as char]
  }

  function ParseDecimal(s: string): nat {
    if s == "" then 0
    else ParseDecimal(s[..|s| - 1]) * 10 + (if IsDigit(s[|s| - 1]) then (s[|s| - 1] - '0') as nat else 0)
  }

  lemma {:induction false} DecimalRoundTrip(n: nat)
    ensures ParseDecimal(Decimal(n)) == n && forall c | c in Decimal(n) :: IsDigit(c)
  {
    if n < 10 {
      assert Decimal(n)[..0] == "";
    } else {
      DecimalRoundTrip(n / 10);
      var d := Decimal(n);
      assert d[..|d| - 1] == Decimal(n / 10);
    }
  }
}
