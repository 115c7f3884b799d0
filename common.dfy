/** Values and list operations shared by every part of the model. */
module Common {

  datatype Option<+T> = None | Some(value: T)

  /** A JavaScript value as far as the model needs to tell them apart:
      `undefined`, `null`, a string, or any other value (number, object, ...). */
  datatype JsValue = Undefined | Null | Str(s: string) | Other

  /** `list || []` for a list that may be `null` or `undefined`: a missing list reads as
      empty; a present one, empty or not, is kept (every array is truthy). */
  function OrEmpty<T>(l: Option<seq<T>>): (r: seq<T>)
    ensures l.Some? ==> r == l.value
    ensures l.None? ==> r == []
  {
    if l.Some? then l.value else []
  }

  /** Strings written one after another. */
  function Concat(parts: seq<string>): string
    decreases |parts|
  {
    if parts == [] then "" else parts[0] + Concat(parts[1..])
  }

  /** A non-empty part makes the concatenation non-empty. */
  lemma {:induction false} ConcatNonEmpty(parts: seq<string>, k: nat)
    requires k < |parts| && parts[k] != []
    ensures Concat(parts) != []
    decreases k
  {
    if k > 0 {
      assert parts[1..][k - 1] == parts[k];
      ConcatNonEmpty(parts[1..], k - 1);
    }
  }

  /** Every element occurs at most once. */
  predicate NoDup<T(==)>(s: seq<T>) {
    forall i, j :: 0 <= i < j < |s| ==> s[i] != s[j]
  }
  /** Two lists without repetitions and without a shared element join into one. */
  lemma NoDupAppend<T>(a: seq<T>, b: seq<T>)
    requires NoDup(a) && NoDup(b)
    requires forall x :: x in a ==> x !in b
    ensures NoDup(a + b)
  {
    forall i, j | 0 <= i < j < |a + b| ensures (a + b)[i] != (a + b)[j] {
      if j < |a| {
        assert (a + b)[i] == a[i] && (a + b)[j] == a[j];
      } else if i >= |a| {
        assert (a + b)[i] == b[i - |a|] && (a + b)[j] == b[j - |a|];
      } else {
        assert (a + b)[i] == a[i] && (a + b)[j] == b[j - |a|];
        assert a[i] in a && b[j - |a|] in b;
      }
    }
  }


  /** The elements of `s` that satisfy `p`, in their original order (`Array.prototype.filter`). */
  function Filter<T>(s: seq<T>, p: T -> bool): (r: seq<T>)
    ensures |r| <= |s|
    ensures forall x :: x in r ==> x in s && p(x)
    ensures forall i :: 0 <= i < |s| && p(s[i]) ==> s[i] in r
    decreases |s|
  {
    if s == [] then []
    else (if p(s[0]) then [s[0]] else []) + Filter(s[1..], p)
  }

  lemma {:induction false} FilterMultiset<T>(s: seq<T>, p: T -> bool)
    ensures forall x :: multiset(Filter(s, p))[x] == if p(x) then multiset(s)[x] else 0
    decreases |s|
  {
    if s != [] {
      FilterMultiset(s[1..], p);
      assert s == [s[0]] + s[1..];
    }
  }

  lemma {:induction false} FilterAppend<T>(a: seq<T>, b: seq<T>, p: T -> bool)
    ensures Filter(a + b, p) == Filter(a, p) + Filter(b, p)
    decreases |a|
  {
    if a != [] {
      assert (a + b)[0] == a[0] && (a + b)[1..] == a[1..] + b;
      FilterAppend(a[1..], b, p);
      var h := if p(a[0]) then [a[0]] else [];
      assert Filter(a + b, p) == h + (Filter(a[1..], p) + Filter(b, p));
    } else {
      assert a + b == b;
    }
  }

  /** Filtering keeps everything when every element passes. */
  lemma {:induction false} FilterAll<T>(s: seq<T>, p: T -> bool)
    requires forall i :: 0 <= i < |s| ==> p(s[i])
    ensures Filter(s, p) == s
    decreases |s|
  {
    if s != [] {
      FilterAll(s[1..], p);
    }
  }

  /** `s.filter(y => y !== x)`: every occurrence of `x` removed, the rest kept in order. */
  function RemoveAll<T(==)>(s: seq<T>, x: T): (r: seq<T>)
    ensures x !in r
    ensures |r| <= |s|
    ensures forall y :: y in r ==> y in s
    ensures forall y :: y in s && y != x ==> y in r
    decreases |s|
  {
    if s == [] then []
    else (if s[0] == x then [] else [s[0]]) + RemoveAll(s[1..], x)
  }

  lemma {:induction false} RemoveAllMultiset<T>(s: seq<T>, x: T)
    ensures multiset(RemoveAll(s, x)) == multiset(s)[x := 0]
    decreases |s|
  {
    if s != [] {
      RemoveAllMultiset(s[1..], x);
      assert s == [s[0]] + s[1..];
    }
  }

  lemma {:induction false} RemoveAllAppend<T>(a: seq<T>, b: seq<T>, x: T)
    ensures RemoveAll(a + b, x) == RemoveAll(a, x) + RemoveAll(b, x)
    decreases |a|
  {
    if a != [] {
      assert (a + b)[0] == a[0] && (a + b)[1..] == a[1..] + b;
      RemoveAllAppend(a[1..], b, x);
      var h := if a[0] == x then [] else [a[0]];
      assert RemoveAll(a + b, x) == h + (RemoveAll(a[1..], x) + RemoveAll(b, x));
    } else {
      assert a + b == b;
    }
  }

  /** Removing an element that does not occur changes nothing. */
  lemma {:induction false} RemoveAllAbsent<T>(s: seq<T>, x: T)
    requires x !in s
    ensures RemoveAll(s, x) == s
    decreases |s|
  {
    if s != [] {
      RemoveAllAbsent(s[1..], x);
    }
  }

  lemma RemoveAllKeepsNoDup<T>(s: seq<T>, x: T)
    requires NoDup(s)
    ensures NoDup(RemoveAll(s, x))
    decreases |s|
  {
    if s != [] {
      RemoveAllKeepsNoDup(s[1..], x);
      assert s[0] !in s[1..] by {
        forall i | 0 <= i < |s[1..]| ensures s[1..][i] != s[0] {
          assert s[1..][i] == s[i + 1];
        }
      }
    }
  }

  /** `if (!s.includes(x)) s.push(x)`. */
  function AppendAbsent<T(==)>(s: seq<T>, x: T): (r: seq<T>)
    ensures x in r
    ensures x in s ==> r == s
    ensures x !in s ==> r == s + [x]
  {
    if x in s then s else s + [x]
  }

  lemma AppendAbsentKeepsNoDup<T>(s: seq<T>, x: T)
    requires NoDup(s)
    ensures NoDup(AppendAbsent(s, x))
  {
    var r := AppendAbsent(s, x);
    if x !in s {
      forall i, j | 0 <= i < j < |r| ensures r[i] != r[j] {
        if j == |s| {
          assert r[i] == s[i];
        }
      }
    }
  }
}
