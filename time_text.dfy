/** Times of day as the client writes them: zero-padded "HH:MM" text, and the
    "HH:MM:00.000" form the back end stores. The client compares these strings
    with JavaScript's `<`/`>=`, which order strings by code units. The lemmas
    here show that on such text this order is the order of the minute counts,
    which is why the rest of the model works on minutes. */
module TimeText {

  /** `String(n).padStart(2, '0')` for a number below 100. */
  function Pad2(n: nat): (s: string)
    requires n < 100
    ensures |s| == 2 && '0' <= s[0] <= '9' && '0' <= s[1] <= '9'
    ensures (s[0] as int - '0' as int) * 10 + (s[1] as int - '0' as int) == n
  {
    [('0' as int + n / 10) as char, ('0' as int + n % 10) as char]
  }

  /** The "HH:MM" text of a minute count since midnight. */
  function Format(m: nat): (s: string)
    requires m < 6000
    ensures |s| == 5 && s[2] == ':'
  {
    Pad2(m / 60) + ":" + Pad2(m % 60)
  }

  /** The "HH:MM:00.000" text the client builds for a slot (`slot + ':00.000'`)
      and the back end stores for a booking's start and end. */
  function StoredForm(m: nat): (s: string)
    requires m < 6000
  {
    Format(m) + ":00.000"
  }

  /** JavaScript's `a < b` on strings: code-unit lexicographic order. */
  predicate LexLess(a: string, b: string)
  {
    if a == [] then b != []
    else if b == [] then false
    else a[0] < b[0] || (a[0] == b[0] && LexLess(a[1..], b[1..]))
  }

  /** Two texts of the same length that differ are ordered by themselves,
      whatever follows them. */
  lemma {:induction false} LexLessSameLength(x: string, y: string, s: string, t: string)
    requires |x| == |y| && x != y
    ensures LexLess(x + s, y + t) <==> LexLess(x, y)
  {
    assert x != [];
    assert (x + s)[0] == x[0] && (y + t)[0] == y[0];
    if x[0] == y[0] {
      assert x[1..] != y[1..];
      assert (x + s)[1..] == x[1..] + s && (y + t)[1..] == y[1..] + t;
      LexLessSameLength(x[1..], y[1..], s, t);
    }
  }

  /** A shared prefix does not affect the order. */
  lemma {:induction false} LexLessCommonPrefix(x: string, s: string, t: string)
    ensures LexLess(x + s, x + t) <==> LexLess(s, t)
  {
    if x != [] {
      assert (x + s)[1..] == x[1..] + s && (x + t)[1..] == x[1..] + t;
      LexLessCommonPrefix(x[1..], s, t);
    } else {
      assert x + s == s && x + t == t;
    }
  }

  /** Two-digit padded numbers compare as the numbers do. */
  lemma Pad2Order(a: nat, b: nat)
    requires a < 100 && b < 100
    ensures LexLess(Pad2(a), Pad2(b)) <==> a < b
  {
    var pa, pb := Pad2(a), Pad2(b);
    assert pa[1..] == [pa[1]] && pb[1..] == [pb[1]];
    assert pa[1..][1..] == [] && pb[1..][1..] == [];
    assert LexLess(pa[1..], pb[1..]) <==> pa[1] < pb[1];
    assert LexLess(pa, pb) <==> pa[0] < pb[0] || (pa[0] == pb[0] && pa[1] < pb[1]);
    assert a < b <==> a / 10 < b / 10 || (a / 10 == b / 10 && a % 10 < b % 10);
  }

  /** Padding is one-to-one. */
  lemma Pad2Injective(a: nat, b: nat)
    requires a < 100 && b < 100
    ensures Pad2(a) == Pad2(b) <==> a == b
  {
    if Pad2(a) == Pad2(b) {
      assert Pad2(a)[0] == Pad2(b)[0] && Pad2(a)[1] == Pad2(b)[1];
    }
  }

  /** "HH:MM" text is one-to-one: `===` on slot text is `==` on minutes. */
  lemma FormatInjective(a: nat, b: nat)
    requires a < 6000 && b < 6000
    ensures Format(a) == Format(b) <==> a == b
  {
    if Format(a) == Format(b) {
      assert Format(a)[..2] == Pad2(a / 60) && Format(b)[..2] == Pad2(b / 60);
      assert Format(a)[3..] == Pad2(a % 60) && Format(b)[3..] == Pad2(b % 60);
      Pad2Injective(a / 60, b / 60);
      Pad2Injective(a % 60, b % 60);
    }
  }

  /** The string order of "HH:MM" text is the numeric order of the minutes. */
  lemma FormatOrder(a: nat, b: nat)
    requires a < 6000 && b < 6000
    ensures LexLess(Format(a), Format(b)) <==> a < b
  {
    var ha, hb, ma, mb := a / 60, b / 60, a % 60, b % 60;
    if ha != hb {
      Pad2Injective(ha, hb);
      LexLessSameLength(Pad2(ha), Pad2(hb), ":" + Pad2(ma), ":" + Pad2(mb));
      assert Format(a) == Pad2(ha) + (":" + Pad2(ma));
      assert Format(b) == Pad2(hb) + (":" + Pad2(mb));
      Pad2Order(ha, hb);
    } else {
      LexLessCommonPrefix(Pad2(ha) + ":", Pad2(ma), Pad2(mb));
      Pad2Order(ma, mb);
    }
  }

  /** The same holds for the stored "HH:MM:00.000" form, so comparing a slot's
      text with a stored booking time compares minutes. */
  lemma StoredFormOrder(a: nat, b: nat)
    requires a < 6000 && b < 6000
    ensures LexLess(StoredForm(a), StoredForm(b)) <==> a < b
    ensures StoredForm(a) == StoredForm(b) <==> a == b
  {
    FormatInjective(a, b);
    FormatOrder(a, b);
    if a != b {
      LexLessSameLength(Format(a), Format(b), ":00.000", ":00.000");
      assert StoredForm(a) == Format(a) + ":00.000" && StoredForm(b) == Format(b) + ":00.000";
      assert StoredForm(a)[..5] == Format(a) && StoredForm(b)[..5] == Format(b);
    } else {
      LexLessCommonPrefix(StoredForm(a), [], []);
      assert StoredForm(a) + [] == StoredForm(a);
    }
  }
}
