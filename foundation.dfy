/**
 * The few pieces of the Swift standard library and Foundation that the GATT
 * core relies on: optionals, results, bytes, `first(where:)`, `allSatisfy`
 * and `String.uppercased()` (restricted to ASCII, which covers UUID strings).
 */
module Foundation {

  /** Swift's `Optional`. */
  datatype Option<+T> = None | Some(value: T) {
    /** `self ?? default` */
    function GetOr(default: T): T {
      if Some? then value else default
    }
  }

  /** Swift's `Result<Success, Failure>`. */
  datatype Result<+T, +E> = Success(value: T) | Failure(error: E)

  /** `UInt8`, the element type of `Data`. */
  type Byte = x: int | 0 <= x < 256

  /** `s.first(where: p)`: the earliest element of `s` that satisfies `p`. */
  function FirstWhere<T>(s: seq<T>, p: T -> bool): (r: Option<T>)
    ensures r.None? <==> forall i :: 0 <= i < |s| ==> !p(s[i])
    ensures r.Some? ==> exists i :: 0 <= i < |s| && s[i] == r.value && p(s[i]) && forall j :: 0 <= j < i ==> !p(s[j])
  {
    if |s| == 0 then None
    else if p(s[0]) then Some(s[0])
    else
      var r := FirstWhere(s[1..], p);
      assert forall i :: 1 <= i < |s| ==> s[i] == s[1..][i - 1];
      r
  }

  /** A found element satisfies the predicate and belongs to the sequence. */
  lemma FirstWhereFound<T>(s: seq<T>, p: T -> bool)
    requires FirstWhere(s, p).Some?
    ensures p(FirstWhere(s, p).value) && FirstWhere(s, p).value in s
  {
  }

  /** Two predicates that agree on every element pick the same element. */
  lemma {:induction false} FirstWhereAgree<T>(s: seq<T>, p: T -> bool, q: T -> bool)
    requires forall i :: 0 <= i < |s| ==> p(s[i]) == q(s[i])
    ensures FirstWhere(s, p) == FirstWhere(s, q)
  {
    if |s| > 0 {
      assert p(s[0]) == q(s[0]);
      FirstWhereAgree(s[1..], p, q);
    }
  }

  /** ASCII upper-casing of one character. */
  function UpperChar(c: char): char {
    if 'a' <= c <= 'z' then (c as int - 32) as char else c
  }

  /** `s.uppercased()`, for the ASCII characters that UUID strings consist of. */
  function Upper(s: string): (r: string)
    ensures |r| == |s|
    ensures forall i :: 0 <= i < |s| && 'a' <= s[i] <= 'z' ==> r[i] as int == s[i] as int - 32
    ensures forall i :: 0 <= i < |s| && !('a' <= s[i] <= 'z') ==> r[i] == s[i]
  {
    seq(|s|, i requires 0 <= i < |s| => UpperChar(s[i]))
  }

  /** Upper-casing twice is upper-casing once. */
  lemma UpperIdempotent(s: string)
    ensures Upper(Upper(s)) == Upper(s)
  {
  }

  /** `a.uppercased() == b.uppercased()` */
  predicate SameIgnoringCase(a: string, b: string) {
    Upper(a) == Upper(b)
  }

  /** Case-insensitive comparison is an equivalence that contains plain equality. */
  lemma SameIgnoringCaseIsEquivalence(a: string, b: string, c: string)
    ensures SameIgnoringCase(a, a)
    ensures SameIgnoringCase(a, b) ==> SameIgnoringCase(b, a)
    ensures SameIgnoringCase(a, b) && SameIgnoringCase(b, c) ==> SameIgnoringCase(a, c)
    ensures a == b ==> SameIgnoringCase(a, b)
  {
  }

  /** Strings that differ only in the case of ASCII letters compare equal. */
  lemma SameIgnoringCaseOfUpper(a: string)
    ensures SameIgnoringCase(a, Upper(a))
  {
    UpperIdempotent(a);
  }

  /**
   * Case-insensitive comparison character by character: equal lengths, and at
   * each position the same character, or a lower-case letter against its
   * upper-case form.
   */
  lemma SameIgnoringCaseByCharacter(a: string, b: string)
    ensures SameIgnoringCase(a, b) <==>
              |a| == |b| &&
              forall i :: 0 <= i < |a| ==>
                a[i] == b[i] ||
                ('a' <= a[i] <= 'z' && b[i] as int == a[i] as int - 32) ||
                ('a' <= b[i] <= 'z' && a[i] as int == b[i] as int - 32)
  {
    if SameIgnoringCase(a, b) {
      forall i | 0 <= i < |a|
        ensures a[i] == b[i] ||
                ('a' <= a[i] <= 'z' && b[i] as int == a[i] as int - 32) ||
                ('a' <= b[i] <= 'z' && a[i] as int == b[i] as int - 32)
      {
        assert Upper(a)[i] == Upper(b)[i];
      }
    }
    if |a| == |b| &&
       forall i :: 0 <= i < |a| ==>
         a[i] == b[i] ||
         ('a' <= a[i] <= 'z' && b[i] as int == a[i] as int - 32) ||
         ('a' <= b[i] <= 'z' && a[i] as int == b[i] as int - 32)
    {
      forall i | 0 <= i < |a|
        ensures Upper(a)[i] == Upper(b)[i]
      {
      }
    }
  }

  /** Case matters to plain equality but not to the case-insensitive comparison. */
  lemma SameIgnoringCaseExamples()
    ensures "180a" != "180A" && SameIgnoringCase("180a", "180A")
    ensures !SameIgnoringCase("180a", "180B")
    ensures !SameIgnoringCase("180a", "180")
  {
    assert "180a"[3] != "180A"[3];
    SameIgnoringCaseByCharacter("180a", "180A");
    SameIgnoringCaseByCharacter("180a", "180B");
    assert Upper("180a")[3] != Upper("180B")[3];
  }
}
