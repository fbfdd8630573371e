/**
 * The two JavaScript string operations the table cells use, with the
 * semantics of the ECMAScript built-ins: `String.prototype.split` with a
 * one-character separator and `String.prototype.substr` with its clamping
 * of the start and the length.
 */
module JsString {

  function Min(a: int, b: int): (r: int) { if a <= b then a else b }
  function Max(a: int, b: int): (r: int) { if a <= b then b else a }

  /**
   * Index of the first occurrence of `c` in `s`, or `|s|` when there is none
   * (unlike JavaScript's `indexOf`, which gives -1). A helper for stating `Split`.
   */
  function IndexOf(s: string, c: char): (k: nat)
    ensures k <= |s|
    ensures k < |s| ==> s[k] == c
    ensures forall j :: 0 <= j < k ==> s[j] != c
  {
    if s == [] then 0
    else if s[0] == c then 0
    else 1 + IndexOf(s[1..], c)
  }

  /**
   * `s.split(sep)`: the maximal separator-free pieces of `s`, in order.
   * The empty string splits into one empty piece, as in JavaScript.
   */
  function Split(s: string, sep: char): (parts: seq<string>)
    ensures |parts| >= 1
    ensures forall i :: 0 <= i < |parts| ==> sep !in parts[i]
  {
    if s == [] then [[]]
    else
      var rest := Split(s[1..], sep);
      if s[0] == sep then [[]] + rest
      else [[s[0]] + rest[0]] + rest[1..]
  }

  /** `parts.join(sep)`: the reference that `Split` must invert. */
  function Join(parts: seq<string>, sep: char): (r: string)
  {
    if parts == [] then []
    else if |parts| == 1 then parts[0]
    else parts[0] + [sep] + Join(parts[1..], sep)
  }

  /** Joining the pieces of a split with the same separator gives the string back. */
  lemma {:induction false} JoinSplit(s: string, sep: char)
    ensures Join(Split(s, sep), sep) == s
  {
    if s != [] {
      var rest := Split(s[1..], sep);
      JoinSplit(s[1..], sep);
      if s[0] == sep {
        assert Split(s, sep) == [[]] + rest;
        assert ([[]] + rest)[1..] == rest;
      } else {
        var parts := [[s[0]] + rest[0]] + rest[1..];
        assert Split(s, sep) == parts;
        if |rest| == 1 {
          assert Join(parts, sep) == [s[0]] + rest[0];
        } else {
          assert parts[1..] == rest[1..];
          assert Join(rest, sep) == rest[0] + [sep] + Join(rest[1..], sep);
          assert Join(parts, sep) == [s[0]] + rest[0] + [sep] + Join(rest[1..], sep);
        }
      }
    }
  }

  /** The first piece of a split is the part of `s` before the first separator. */
  lemma {:induction false} SplitHead(s: string, sep: char)
    ensures Split(s, sep)[0] == s[..IndexOf(s, sep)]
  {
    if s != [] && s[0] != sep {
      SplitHead(s[1..], sep);
      assert s[..IndexOf(s, sep)] == [s[0]] + s[1..][..IndexOf(s[1..], sep)];
    }
  }

  /**
   * `s.substr(start, length)`. A negative start counts from the end and is
   * clamped at 0; a start past the end is clamped to `|s|`; a negative
   * length is 0; the length is clamped to what is left after the start.
   */
  function Substr(s: string, start: int, length: int): (r: string)
    ensures |r| <= |s| && |r| <= Max(length, 0)
  {
    var from := if start < 0 then Max(|s| + start, 0) else Min(start, |s|);
    var count := Min(Max(length, 0), |s| - from);
    s[from .. from + count]
  }

  /** `s.substr(0, n)` is the first `n` characters, or all of `s` if it is shorter. */
  lemma SubstrFromStart(s: string, n: int)
    requires n >= 0
    ensures Substr(s, 0, n) == s[..Min(n, |s|)]
  {
  }

  /**
   * `s.substr(s.length - k, s.length)`: the last `k` characters when `s` has
   * at least `k`; otherwise JavaScript starts at `Max(2 * |s| - k, 0)`, since
   * the negative start `|s| - k` is counted from the end a second time.
   */
  lemma SubstrFromEnd(s: string, k: nat)
    ensures k <= |s| ==> Substr(s, |s| - k, |s|) == s[|s| - k..]
    ensures k > |s| ==> Substr(s, |s| - k, |s|) == s[Max(2 * |s| - k, 0)..]
  {
  }
}
