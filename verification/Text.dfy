/** Strings as the state package compares and trims them. */
module Text {

  /** Unicode white space, as strings.TrimSpace strips it. */
  predicate IsSpace(c: char) {
    || c in {'\t', '\n', '\U{0B}', '\U{0C}', '\r', ' ', '\U{85}', '\U{A0}', '\U{1680}'}
    || '\U{2000}' <= c <= '\U{200A}'
    || c in {'\U{2028}', '\U{2029}', '\U{202F}', '\U{205F}', '\U{3000}'}
  }

  /** strings.TrimSpace(s) == "". */
  predicate Blank(s: string) {
    forall i | 0 <= i < |s| :: IsSpace(s[i])
  }

  /** Something is left after trimming. */
  predicate Written(s: string) {
    exists i :: 0 <= i < |s| && !IsSpace(s[i])
  }

  lemma WrittenOrBlank(s: string)
    ensures Written(s) <==> !Blank(s)
  {
  }

  /** strings.Compare: lexicographic, by code point (which is also the order of UTF-8 bytes). */
  function Compare(a: string, b: string): (r: int)
    ensures -1 <= r <= 1
  {
    if a == "" && b == "" then 0
    else if a == "" then -1
    else if b == "" then 1
    else if a[0] < b[0] then -1
    else if a[0] > b[0] then 1
    else Compare(a[1..], b[1..])
  }

  /** `a` and `b` part ways at `k`, with `a` the smaller there. */
  ghost predicate PartsBelow(a: string, b: string, k: nat) {
    && k <= |a| && k < |b| && a[..k] == b[..k]
    && (k < |a| ==> a[k] < b[k])
  }

  lemma {:induction false} CompareFindsTheDifference(a: string, b: string) returns (k: nat)
    requires Compare(a, b) < 0
    ensures PartsBelow(a, b, k)
  {
    if a == "" || a[0] < b[0] {
      k := 0;
    } else {
      var j := CompareFindsTheDifference(a[1..], b[1..]);
      assert a[..j + 1] == [a[0]] + a[1..][..j] && b[..j + 1] == [b[0]] + b[1..][..j];
      k := j + 1;
    }
  }

  /** The first difference decides. */
  lemma {:induction false} CompareByFirstDifference(a: string, b: string, k: nat)
    requires PartsBelow(a, b, k)
    ensures Compare(a, b) == -1
  {
    if k > 0 {
      assert a[0] == a[..k][0] == b[..k][0] == b[0];
      assert a[1..][..k - 1] == a[..k][1..] && b[1..][..k - 1] == b[..k][1..];
      CompareByFirstDifference(a[1..], b[1..], k - 1);
    }
  }

  lemma {:induction false} CompareEqual(a: string, b: string)
    ensures Compare(a, b) == 0 <==> a == b
  {
    if a != "" && b != "" {
      CompareEqual(a[1..], b[1..]);
      assert a == [a[0]] + a[1..] && b == [b[0]] + b[1..];
    }
  }

  lemma {:induction false} CompareSwaps(a: string, b: string)
    ensures Compare(a, b) == -Compare(b, a)
  {
    if a != "" && b != "" {
      CompareSwaps(a[1..], b[1..]);
    }
  }

  lemma {:induction false} CompareTransitive(a: string, b: string, c: string)
    requires Compare(a, b) < 0 && Compare(b, c) < 0
    ensures Compare(a, c) < 0
  {
    if a != "" && b != "" && c != "" && a[0] == b[0] == c[0] {
      CompareTransitive(a[1..], b[1..], c[1..]);
    }
  }
}
