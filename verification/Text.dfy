/** Text order (by code point) used to break timestamp ties between event ids. */
module Text {

  predicate Less(a: string, b: string) {
    b != "" && (a == "" || a[0] < b[0] || (a[0] == b[0] && Less(a[1..], b[1..])))
  }

  lemma {:induction false} LessIsTotal(a: string, b: string)
    ensures Less(a, b) || Less(b, a) || a == b
  {
    if a != "" && b != "" && a[0] == b[0] {
      LessIsTotal(a[1..], b[1..]);
      assert a == [a[0]] + a[1..] && b == [b[0]] + b[1..];
    }
  }

  lemma {:induction false} LessIsTransitive(a: string, b: string, c: string)
    requires Less(a, b) && Less(b, c)
    ensures Less(a, c)
  {
    if a != "" && a[0] == b[0] == c[0] {
      LessIsTransitive(a[1..], b[1..], c[1..]);
    }
  }

  lemma {:induction false} LessIsIrreflexive(a: string)
    ensures !Less(a, a)
  {
    if a != "" {
      LessIsIrreflexive(a[1..]);
    }
  }

  lemma LessIsAsymmetric(a: string, b: string)
    ensures !(Less(a, b) && Less(b, a))
  {
    if Less(a, b) && Less(b, a) {
      LessIsTransitive(a, b, a);
      LessIsIrreflexive(a);
    }
  }

  /** At position k the texts differ for the first time: there a ends, or has the smaller character. */
  predicate DiffersAt(a: string, b: string, k: nat) {
    k <= |a| && k < |b| && (forall i :: 0 <= i < k ==> a[i] == b[i]) && (k == |a| || a[k] < b[k])
  }

  /** One text is less than another exactly if it is a proper prefix or has the smaller character where they first differ. */
  lemma {:induction false} LessMeans(a: string, b: string)
    ensures Less(a, b) <==> exists k: nat :: DiffersAt(a, b, k)
  {
    if a == "" || b == "" || a[0] != b[0] {
      assert Less(a, b) <==> DiffersAt(a, b, 0);
      assert forall k: nat :: DiffersAt(a, b, k) ==> k == 0;
    } else {
      LessMeans(a[1..], b[1..]);
      if k: nat :| DiffersAt(a[1..], b[1..], k) {
        forall i | 0 <= i < k + 1 ensures a[i] == b[i] {
          assert i > 0 ==> a[1..][i - 1] == b[1..][i - 1];
        }
        assert DiffersAt(a, b, k + 1);
      }
      if k: nat :| DiffersAt(a, b, k) {
        forall i | 0 <= i < k - 1 ensures a[1..][i] == b[1..][i] {
          assert a[i + 1] == b[i + 1];
        }
        assert DiffersAt(a[1..], b[1..], k - 1);
      }
    }
  }

  predicate IsLeast(s: set<string>, l: string) {
    l in s && forall x :: x in s ==> AtMost(l, x)
  }

  predicate AtMost(a: string, b: string) {
    a == b || Less(a, b)
  }

  lemma AtMostIsTransitive(a: string, b: string, c: string)
    requires AtMost(a, b) && AtMost(b, c)
    ensures AtMost(a, c)
  {
    if a != b && b != c {
      LessIsTransitive(a, b, c);
    }
  }

  lemma AtMostIsTotal(a: string, b: string)
    ensures AtMost(a, b) || AtMost(b, a)
  {
    LessIsTotal(a, b);
  }

  lemma AtMostIsAntisymmetric(a: string, b: string)
    requires AtMost(a, b) && AtMost(b, a)
    ensures a == b
  {
    LessIsAsymmetric(a, b);
  }

  lemma {:induction false} LeastExists(s: set<string>)
    requires s != {}
    ensures exists l :: IsLeast(s, l)
  {
    var y :| y in s;
    var rest := s - {y};
    forall x | x in s ensures x == y || x in rest {}
    if rest == {} {
      assert IsLeast(s, y);
    } else {
      LeastExists(rest);
      var l :| IsLeast(rest, l);
      AtMostIsTotal(y, l);
      var least := if AtMost(y, l) then y else l;
      forall x | x in rest ensures AtMost(least, x) {
        AtMostIsTransitive(least, l, x);
      }
      assert IsLeast(s, least);
    }
  }

  function LeastOf(s: set<string>): (l: string)
    requires s != {}
    ensures IsLeast(s, l)
  {
    LeastExists(s);
    assert forall a, b :: IsLeast(s, a) && IsLeast(s, b) ==> a == b by {
      forall a, b | IsLeast(s, a) && IsLeast(s, b) ensures a == b { AtMostIsAntisymmetric(a, b); }
    }
    var l :| l in s && IsLeast(s, l);
    l
  }

  lemma Prepend(l: string, rest: seq<string>)
    requires forall x :: x in rest ==> Less(l, x)
    requires forall i, j :: 0 <= i < j < |rest| ==> Less(rest[i], rest[j])
    ensures forall i, j :: 0 <= i < j < |rest| + 1 ==> Less(([l] + rest)[i], ([l] + rest)[j])
  {
    hide Less;
    forall j | 0 <= j < |rest| ensures Less(l, rest[j]) {
      assert rest[j] in rest;
    }
  }

  function Sort(s: set<string>): (r: seq<string>)
    ensures forall x :: x in r <==> x in s
    ensures forall i, j :: 0 <= i < j < |r| ==> Less(r[i], r[j])
  {
    if s == {} then [] else
      var l := LeastOf(s);
      var rest := Sort(s - {l});
      Prepend(l, rest);
      [l] + rest
  }
}
