/** What several parts of the model share. */
module Basics {

  datatype Option<+T> = None | Some(value: T)

  predicate Distinct<T(==)>(s: seq<T>) { forall i, j :: 0 <= i < j < |s| ==> s[i] != s[j] }

  function Abs(x: real): real { if x >= 0.0 then x else -x }

  /**
   * A character in upper case, as far as letters A to Z come out of it: all other characters are left as they
   * are, since no upper case of theirs holds such a letter or a digit.
   */
  function Upper(c: char): string {
    if 'a' <= c <= 'z' then [(c as int - 32) as char]
    else
      match c
      case '\U{00DF}' => "SS"
      case '\U{0131}' => "I"
      case '\U{0149}' => "\U{02BC}N"
      case '\U{017F}' => "S"
      case '\U{01F0}' => "J\U{030C}"
      case '\U{1E96}' => "H\U{0331}"
      case '\U{1E97}' => "T\U{0308}"
      case '\U{1E98}' => "W\U{030A}"
      case '\U{1E99}' => "Y\U{030A}"
      case '\U{1E9A}' => "A\U{02BE}"
      case '\U{FB00}' => "FF"
      case '\U{FB01}' => "FI"
      case '\U{FB02}' => "FL"
      case '\U{FB03}' => "FFI"
      case '\U{FB04}' => "FFL"
      case '\U{FB05}' => "ST"
      case '\U{FB06}' => "ST"
      case _ => [c]
  }

  function UpperText(s: string): string { if s == "" then "" else Upper(s[0]) + UpperText(s[1..]) }

  lemma {:induction false} UpperTextConcat(a: string, b: string)
    ensures UpperText(a + b) == UpperText(a) + UpperText(b)
  {
    hide Upper;
    if a == "" {
      assert a + b == b;
    } else {
      assert (a + b)[1..] == a[1..] + b;
      UpperTextConcat(a[1..], b);
    }
  }

  /** Below 128, small letters become capital ones and every other character stays. */
  lemma {:induction false} UpperOfChar(c: char)
    requires c as int < 128
    ensures UpperText([c]) == [if 'a' <= c <= 'z' then (c as int - 32) as char else c]
  {
    assert [c][1..] == "" && UpperText([c][1..]) == "";
    var u := Upper(c);
    assert u + "" == u;
  }
}
