/** The order of strings, and sorted lists of names. */
module Names {
  import opened Wrappers

  /** Lexicographic order, as Python compares strings. */
  predicate Less(a: string, b: string) {
    b != "" && (a == "" || a[0] < b[0] || (a[0] == b[0] && Less(a[1..], b[1..])))
  }

  lemma {:induction false} LessIsTotal(a: string, b: string)
    ensures Less(a, b) || a == b || Less(b, a)
    ensures !(Less(a, b) && Less(b, a)) && (Less(a, b) ==> a != b)
  {
    if a != "" && b != "" {
      LessIsTotal(a[1..], b[1..]);
      assert a == [a[0]] + a[1..] && b == [b[0]] + b[1..];
    }
  }

  lemma {:induction false} LessIsTransitive(a: string, b: string, c: string)
    requires Less(a, b) && Less(b, c)
    ensures Less(a, c)
  {
    if a != "" && a[0] == b[0] == c[0] {
      LessIsTransitive(a[1..], b[1..], c[1..]);
    }
  }

  /** The strings agree up to k, where the first ends or has the smaller character. */
  predicate DifferAt(a: string, b: string, k: int) {
    0 <= k <= |a| && k < |b| && a[..k] == b[..k] && (k == |a| || a[k] < b[k])
  }

  /** The order is decided at the first difference. */
  lemma {:induction false} LessIffFirstDifference(a: string, b: string)
    ensures Less(a, b) <==> exists k :: DifferAt(a, b, k)
  {
    if a != "" && b != "" && a[0] == b[0] {
      var c, d := a[1..], b[1..];
      LessIffFirstDifference(c, d);
      if k :| DifferAt(c, d, k) {
        assert a[..k + 1] == [a[0]] + c[..k] && b[..k + 1] == [b[0]] + d[..k];
        assert DifferAt(a, b, k + 1);
      }
      if k :| DifferAt(a, b, k) {
        assert k > 0;
        assert c[..k - 1] == a[..k][1..] && d[..k - 1] == b[..k][1..];
        assert DifferAt(c, d, k - 1);
      }
    } else if b != "" {
      assert Less(a, b) ==> DifferAt(a, b, 0);
      if k :| DifferAt(a, b, k) {
        assert k > 0 ==> a[..k][0] == b[..k][0];
      }
    }
  }

  predicate IsLeast(name: string, names: set<string>) {
    name in names && forall n :: n in names && n != name ==> Less(name, n)
  }

  lemma {:induction false} LeastExists(names: set<string>)
    requires names != {}
    ensures exists name :: IsLeast(name, names)
    ensures forall a, b :: IsLeast(a, names) && IsLeast(b, names) ==> a == b
    decreases |names|
  {
    var name := Pick(names);
    var others := names - {name};
    forall a, b | IsLeast(a, names) && IsLeast(b, names)
      ensures a == b
    {
      LessIsTotal(a, b);
    }
    if others == {} {
      assert forall n :: n in names && n != name ==> n in others;
      assert IsLeast(name, names);
    } else {
      LeastExists(others);
      var best :| IsLeast(best, others);
      LessIsTotal(name, best);
      if Less(name, best) {
        forall n | n in names && n != name
          ensures Less(name, n)
        {
          if n != best {
            LessIsTransitive(name, best, n);
          }
        }
        assert IsLeast(name, names);
      } else {
        assert IsLeast(best, names);
      }
    }
  }

  function Least(names: set<string>): (name: string)
    requires names != {}
    ensures IsLeast(name, names)
  {
    LeastExists(names);
    var name :| IsLeast(name, names);
    name
  }

  function SortedNames(names: set<string>): seq<string>
    decreases |names|
  {
    if names == {} then [] else [Least(names)] + SortedNames(names - {Least(names)})
  }

  ghost predicate Ascending(names: seq<string>) {
    forall i, j :: 0 <= i < j < |names| ==> Less(names[i], names[j])
  }

  lemma {:induction false} SortedNamesAscend(names: set<string>)
    ensures Ascending(SortedNames(names))
    decreases |names|
  {
    if names != {} {
      var first := Least(names);
      var rest := SortedNames(names - {first});
      SortedNamesAscend(names - {first});
      SortedNamesAreTheSet(names - {first});
      assert SortedNames(names) == [first] + rest;
      assert forall k :: 0 <= k < |rest| ==> rest[k] in rest;
    }
  }

  lemma {:induction false} SortedNamesAreTheSet(names: set<string>)
    ensures forall n :: n in SortedNames(names) <==> n in names
    decreases |names|
  {
    if names != {} {
      SortedNamesAreTheSet(names - {Least(names)});
    }
  }
}
