/** The data-URI prefix strip of the base64 endpoint, main.py:106-107:
    a string holding a comma is replaced by `s.split(",")[1]`. */
module DataUri {

  /** Index of the first occurrence of `c` in `s`. */
  function IndexOf(s: string, c: char): (i: nat)
    requires c in s
    ensures i < |s| && s[i] == c && c !in s[..i]
  {
    if s[0] == c then 0
    else
      var i := IndexOf(s[1..], c);
      assert s[..i + 1] == [s[0]] + s[1..][..i];
      1 + i
  }

  /** Python's `s.split(sep)` for a one-character separator: the pieces
      between consecutive separators, always at least one. */
  function Split(s: string, sep: char): (parts: seq<string>)
    ensures 1 <= |parts|
    ensures sep in s ==> 2 <= |parts|
    ensures forall k :: 0 <= k < |parts| ==> sep !in parts[k] && |parts[k]| <= |s|
    decreases |s|
  {
    if sep !in s then [s]
    else
      var i := IndexOf(s, sep);
      [s[..i]] + Split(s[i + 1..], sep)
  }

  /** Python's `sep.join(parts)`. */
  function Join(parts: seq<string>, sep: char): string
  {
    if |parts| <= 1 then (if parts == [] then [] else parts[0])
    else parts[0] + [sep] + Join(parts[1..], sep)
  }

  /** Splitting loses nothing: joining the pieces gives the string back. */
  lemma {:induction false} SplitJoin(s: string, sep: char)
    ensures Join(Split(s, sep), sep) == s
    decreases |s|
  {
    if sep in s {
      var i := IndexOf(s, sep);
      SplitJoin(s[i + 1..], sep);
      assert s == s[..i] + [sep] + s[i + 1..];
    }
  }

  /** The first separator of `a + [c] + b` sits right after `a` when `a` has none. */
  lemma IndexOfAfter(a: string, c: char, b: string)
    requires c !in a
    ensures c in a + [c] + b && IndexOf(a + [c] + b, c) == |a|
  {
    var s := a + [c] + b;
    assert s[|a|] == c;
    var i := IndexOf(s, c);
    assert s[..|a|] == a;
  }

  /** The prefix strip: a string with a comma becomes the segment between its
      first and second comma (`split(",")[1]`); any other string is kept. */
  function StripPrefix(s: string): (payload: string)
    ensures ',' !in s ==> payload == s
    ensures ',' in s ==> ',' !in payload && |payload| < |s|
  {
    if ',' in s then Split(s, ',')[1] else s
  }

  /** Splitting at a first separator that follows `a`. */
  lemma SplitAfter(a: string, sep: char, b: string)
    requires sep !in a
    ensures Split(a + [sep] + b, sep) == [a] + Split(b, sep)
  {
    var s := a + [sep] + b;
    IndexOfAfter(a, sep, b);
    assert s[..|a|] == a && s[|a| + 1..] == b;
  }

  /** With a comma-free header, the strip keeps the first piece after it. */
  lemma StripAfterHeader(header: string, rest: string)
    requires ',' !in header
    ensures StripPrefix(header + [','] + rest) == Split(rest, ',')[0]
  {
    var s := header + [','] + rest;
    assert s[|header|] == ',';
    SplitAfter(header, ',', rest);
  }

  /** The first piece is everything before the first comma. */
  lemma FirstPiece(payload: string, tail: string)
    requires ',' !in payload
    requires tail == [] || tail[0] == ','
    ensures Split(payload + tail, ',')[0] == payload
  {
    if tail == [] {
      assert payload + tail == payload;
    } else {
      assert payload + tail == payload + [','] + tail[1..];
      SplitAfter(payload, ',', tail[1..]);
    }
  }

  /** A data URI `header,payload` yields its payload; whatever follows a
      second comma is dropped along with the comma. */
  lemma StripDataUri(header: string, payload: string, tail: string)
    requires ',' !in header && ',' !in payload
    requires tail == [] || tail[0] == ','
    ensures StripPrefix(header + [','] + payload + tail) == payload
  {
    assert header + [','] + payload + tail == header + [','] + (payload + tail);
    StripAfterHeader(header, payload + tail);
    FirstPiece(payload, tail);
  }
}
