/**
 * The static table is in the order of Appendix A of RFC 7541: by name, a name behind those it begins, and
 * for one name by value. So no two entries are equal, and a field's index is the only one that stands for it.
 */
module StaticOrder {
  import opened Bytes
  import opened Headers
  import Lookups
  import opened StaticTable

  /** The octet at `k`, or what the end of the string counts as. */
  function At(n: string, k: nat, end: int): int
  {
    if k < |n| then n[k] as int % 256 else end
  }

  /** From character `k` on, `a` comes first. */
  predicate Before(a: string, b: string, k: nat, end: int)
    decreases |a| - k
  {
    At(a, k, end) < At(b, k, end) || (k < |a| && At(a, k, end) == At(b, k, end) && Before(a, b, k + 1, end))
  }

  /** The entry at `i` comes before the one at `j`. */
  predicate Ordered(i: nat, j: nat)
  {
    Before(Name(i), Name(j), 0, 127) || (Name(i) == Name(j) && Before(Value(i), Value(j), 0, 0))
  }

  predicate InOrder(i: nat)
  {
    Ordered(i, i + 1)
  }

  /** Two names that part at `k`. */
  lemma NameFirst(i: nat, k: nat)
    requires k <= |Name(i)| && k <= |Name(i + 1)| && Name(i)[..k] == Name(i + 1)[..k]
    requires At(Name(i), k, 127) < At(Name(i + 1), k, 127)
    ensures InOrder(i)
  {
    hide Name, Value;
    SamePrefix(Name(i), Name(i + 1), k, 0, 127);
  }

  /** Two values of one name that part at `k`. */
  lemma ValueFirst(i: nat, k: nat)
    requires Name(i) == Name(i + 1)
    requires k <= |Value(i)| && k <= |Value(i + 1)| && Value(i)[..k] == Value(i + 1)[..k]
    requires At(Value(i), k, 0) < At(Value(i + 1), k, 0)
    ensures InOrder(i)
  {
    hide Name, Value;
    SamePrefix(Value(i), Value(i + 1), k, 0, 0);
  }

  lemma {:induction false} SamePrefix(a: string, b: string, k: nat, from: nat, end: int)
    requires from <= k <= |a| && k <= |b| && a[..k] == b[..k] && At(a, k, end) < At(b, k, end)
    ensures Before(a, b, from, end)
    decreases k - from
  {
    if from < k {
      assert a[from] == a[..k][from] == b[..k][from] == b[from];
      SamePrefix(a, b, k, from + 1, end);
    }
  }

  lemma PseudoInOrder(i: nat)
    requires 1 <= i < 15
    ensures InOrder(i)
  {
    hide Before;
    match i
    case 1 => NameFirst(1, 1);
    case 2 => ValueFirst(2, 0);
    case 3 => NameFirst(3, 1);
    case 4 => ValueFirst(4, 1);
    case 5 => NameFirst(5, 1);
    case 6 => ValueFirst(6, 4);
    case 7 => NameFirst(7, 2);
    case 8 => ValueFirst(8, 2);
    case 9 => ValueFirst(9, 2);
    case 10 => ValueFirst(10, 0);
    case 11 => ValueFirst(11, 0);
    case 12 => ValueFirst(12, 2);
    case 13 => ValueFirst(13, 0);
    case _ => NameFirst(14, 0);
  }

  lemma From15InOrder(i: nat)
    requires 15 <= i < 19
    ensures InOrder(i)
  {
    hide Value, Before;
    match i
    case 15 => NameFirst(15, 7);
    case 16 => NameFirst(16, 7);
    case 17 => NameFirst(17, 7);
    case _ => NameFirst(18, 6);
  }

  lemma From19InOrder(i: nat)
    requires 19 <= i < 23
    ensures InOrder(i)
  {
    hide Value, Before;
    match i
    case 19 => NameFirst(19, 4);
    case 20 => NameFirst(20, 1);
    case 21 => NameFirst(21, 1);
    case _ => NameFirst(22, 1);
  }

  lemma From23InOrder(i: nat)
    requires 23 <= i < 27
    ensures InOrder(i)
  {
    hide Value, Before;
    match i
    case 23 => NameFirst(23, 0);
    case 24 => NameFirst(24, 1);
    case 25 => NameFirst(25, 8);
    case _ => NameFirst(26, 8);
  }

  lemma From27InOrder(i: nat)
    requires 27 <= i < 31
    ensures InOrder(i)
  {
    hide Value, Before;
    match i
    case 27 => NameFirst(27, 9);
    case 28 => NameFirst(28, 9);
    case 29 => NameFirst(29, 8);
    case _ => NameFirst(30, 8);
  }

  lemma From31InOrder(i: nat)
    requires 31 <= i < 39
    ensures InOrder(i)
  {
    hide Value, Before;
    match i
    case 31 => NameFirst(31, 2);
    case 32 => NameFirst(32, 0);
    case 33 => NameFirst(33, 0);
    case 34 => NameFirst(34, 1);
    case 35 => NameFirst(35, 3);
    case 36 => NameFirst(36, 0);
    case 37 => NameFirst(37, 0);
    case _ => NameFirst(38, 0);
  }

  lemma From39InOrder(i: nat)
    requires 39 <= i < 47
    ensures InOrder(i)
  {
    hide Value, Before;
    match i
    case 39 => NameFirst(39, 4);
    case 40 => NameFirst(40, 3);
    case 41 => NameFirst(41, 3);
    case 42 => NameFirst(42, 3);
    case 43 => NameFirst(43, 0);
    case 44 => NameFirst(44, 1);
    case 45 => NameFirst(45, 1);
    case _ => NameFirst(46, 0);
  }

  lemma From47InOrder(i: nat)
    requires 47 <= i < 54
    ensures InOrder(i)
  {
    hide Value, Before;
    match i
    case 47 => NameFirst(47, 0);
    case 48 => NameFirst(48, 10);
    case 49 => NameFirst(49, 0);
    case 50 => NameFirst(50, 1);
    case 51 => NameFirst(51, 3);
    case 52 => NameFirst(52, 2);
    case _ => NameFirst(53, 0);
  }

  lemma From54InOrder(i: nat)
    requires 54 <= i < 61
    ensures InOrder(i)
  {
    hide Value, Before;
    match i
    case 54 => NameFirst(54, 2);
    case 55 => NameFirst(55, 1);
    case 56 => NameFirst(56, 0);
    case 57 => NameFirst(57, 0);
    case 58 => NameFirst(58, 0);
    case 59 => NameFirst(59, 1);
    case _ => NameFirst(60, 0);
  }

  lemma TableInOrder(i: nat)
    requires 1 <= i < COUNT
    ensures InOrder(i)
  {
    if i < 15 {
      PseudoInOrder(i);
    } else if i < 19 {
      From15InOrder(i);
    } else if i < 23 {
      From19InOrder(i);
    } else if i < 27 {
      From23InOrder(i);
    } else if i < 31 {
      From27InOrder(i);
    } else if i < 39 {
      From31InOrder(i);
    } else if i < 47 {
      From39InOrder(i);
    } else if i < 54 {
      From47InOrder(i);
    } else {
      From54InOrder(i);
    }
  }

  lemma {:induction false} BeforeIsTransitive(a: string, b: string, c: string, k: nat, end: int)
    requires Before(a, b, k, end) && Before(b, c, k, end)
    ensures Before(a, c, k, end)
    decreases |a| - k
  {
    if At(a, k, end) == At(b, k, end) == At(c, k, end) {
      BeforeIsTransitive(a, b, c, k + 1, end);
    }
  }

  lemma {:induction false} BeforeIsDifferent(a: string, b: string, k: nat, end: int)
    requires Before(a, b, k, end)
    ensures Ascii(a) != Ascii(b)
    decreases |a| - k
  {
    if At(a, k, end) == At(b, k, end) {
      BeforeIsDifferent(a, b, k + 1, end);
    } else if k < |a| && k < |b| {
      assert Ascii(a)[k] != Ascii(b)[k];
    }
  }

  lemma {:induction false} EntriesOrdered(i: nat, j: nat)
    requires 1 <= i < j <= COUNT
    ensures Ordered(i, j)
    decreases j - i
  {
    hide Name, Value, Before;
    TableInOrder(i);
    if i + 1 < j {
      EntriesOrdered(i + 1, j);
      OrderedTwice(i, i + 1, j);
    }
  }

  lemma OrderedTwice(i: nat, j: nat, k: nat)
    requires Ordered(i, j) && Ordered(j, k)
    ensures Ordered(i, k)
  {
    hide Name, Value, Before;
    if Before(Name(i), Name(j), 0, 127) && Before(Name(j), Name(k), 0, 127) {
      BeforeIsTransitive(Name(i), Name(j), Name(k), 0, 127);
    } else if Before(Value(i), Value(j), 0, 0) && Before(Value(j), Value(k), 0, 0) {
      BeforeIsTransitive(Value(i), Value(j), Value(k), 0, 0);
    }
  }

  lemma EntriesDiffer(i: nat, j: nat)
    requires 1 <= i < j <= COUNT
    ensures Entry(i) != Entry(j)
  {
    hide Name, Value, Before;
    EntriesOrdered(i, j);
    if Before(Name(i), Name(j), 0, 127) {
      BeforeIsDifferent(Name(i), Name(j), 0, 127);
    } else {
      BeforeIsDifferent(Value(i), Value(j), 0, 0);
    }
  }

  /** No entry occurs twice, so each has the one index that the lookup finds. */
  lemma EachHasItsIndex(i: nat)
    requires 1 <= i <= COUNT
    ensures FullMatch(Entry(i)) == i
  {
    hide Name, Value, FullMatch;
    var n := FullMatch(Entry(i));
    assert Entries()[i - 1] in Entries();
    if n < i {
      EntriesDiffer(n, i);
    } else if i < n {
      EntriesDiffer(i, n);
    }
  }
}
