/** Names of the data objects inside a container: made unique by numbering collisions. */
module Naming {
  import opened Types

  const DIGITS: string := "0123456789"

  function Decimal(n: nat): string {
    if n < 10 then [DIGITS[n]] else Decimal(n / 10) + [DIGITS[n % 10]]
  }

  lemma DigitsDiffer(a: nat, b: nat)
    requires a < 10 && b < 10 && DIGITS[a] == DIGITS[b]
    ensures a == b
  {}

  lemma {:induction false} DecimalInjective(a: nat, b: nat)
    requires Decimal(a) == Decimal(b)
    ensures a == b
    decreases a
  {
    var x, y := Decimal(a), Decimal(b);
    DecimalNonEmpty(a / 10);
    DecimalNonEmpty(b / 10);
    assert x[|x| - 1] == DIGITS[a % 10] && y[|y| - 1] == DIGITS[b % 10];
    DigitsDiffer(a % 10, b % 10);
    if a >= 10 && b >= 10 {
      assert Decimal(a / 10) == x[..|x| - 1] && Decimal(b / 10) == y[..|y| - 1];
      DecimalInjective(a / 10, b / 10);
    }
  }

  lemma {:induction false} DecimalNonEmpty(n: nat)
    ensures Decimal(n) != []
  {}

  // The position of the last dot, or -1.
  function LastDot(name: string): (i: int)
    ensures -1 <= i < |name|
    ensures 0 <= i ==> name[i] == '.'
    ensures forall j | i < j < |name| :: name[j] != '.'
  {
    if name == [] then -1
    else if name[|name| - 1] == '.' then |name| - 1
    else LastDot(name[..|name| - 1])
  }

  // "a.txt" numbered 2 is "a (2).txt"; a name without an extension takes the number at its end.
  function Numbered(name: string, n: nat): string {
    var i := LastDot(name);
    if 0 < i then name[..i] + " (" + Decimal(n) + ")" + name[i..]
    else name + " (" + Decimal(n) + ")"
  }

  lemma NumberedInjective(name: string, a: nat, b: nat)
    requires Numbered(name, a) == Numbered(name, b)
    ensures a == b
  {
    var i := LastDot(name);
    var head := if 0 < i then name[..i] + " (" else name + " (";
    var tail := if 0 < i then ")" + name[i..] else ")";
    var p, q := Decimal(a), Decimal(b);
    assert Numbered(name, a) == head + p + tail && Numbered(name, b) == head + q + tail;
    assert |p| == |q|;
    assert p == (head + p + tail)[|head|..|head| + |p|];
    assert q == (head + q + tail)[|head|..|head| + |q|];
    DecimalInjective(a, b);
  }

  // The taken names that numbering from 2 up to n has not run into yet.
  function Untried(seen: set<string>, name: string, n: nat): set<string> {
    if n <= 2 then seen else Untried(seen, name, n - 1) - {Numbered(name, n - 1)}
  }

  lemma {:induction false} StillUntried(seen: set<string>, name: string, n: nat, m: nat)
    requires n <= m && Numbered(name, m) in seen
    ensures Numbered(name, m) in Untried(seen, name, n)
  {
    if n > 2 {
      StillUntried(seen, name, n - 1, m);
      if Numbered(name, n - 1) == Numbered(name, m) {
        NumberedInjective(name, n - 1, m);
      }
    }
  }

  // Each collision uses up one more of the finitely many taken names.
  lemma CollisionUsesUpAName(seen: set<string>, name: string, n: nat)
    requires 2 <= n && Numbered(name, n) in seen
    ensures |Untried(seen, name, n + 1)| < |Untried(seen, name, n)|
  {
    StillUntried(seen, name, n, n);
  }

  // The first free number from n on.
  function FirstFree(seen: set<string>, name: string, n: nat): (r: nat)
    requires 2 <= n
    ensures n <= r && Numbered(name, r) !in seen
    decreases |Untried(seen, name, n)|
  {
    if Numbered(name, n) in seen then
      CollisionUsesUpAName(seen, name, n);
      FirstFree(seen, name, n + 1)
    else n
  }

  /** Numbering stops at the first number whose name is free. */
  lemma {:induction false} FirstFreeIsFirst(seen: set<string>, name: string, n: nat, m: nat)
    requires 2 <= n <= m < FirstFree(seen, name, n)
    ensures Numbered(name, m) in seen
    decreases m - n
  {
    if n < m {
      FirstFreeIsFirst(seen, name, n + 1, m);
    }
  }

  function BaseName(name: string, index: nat): string {
    if name == "" then "document-" + Decimal(index + 1) else name
  }

  function UniqueName(seen: set<string>, name: string, index: nat): (r: string)
    ensures r !in seen
  {
    var base := BaseName(name, index);
    if base in seen then Numbered(base, FirstFree(seen, base, 2)) else base
  }

  /** The numbering loop ends, with a name nothing in the set has. */
  method UniqueObjectName(seen: set<string>, name: string, index: nat) returns (candidate: string, seen': set<string>)
    ensures candidate == UniqueName(seen, name, index)
    ensures seen' == seen + {candidate}
  {
    var base := name;
    if base == "" {
      base := "document-" + Decimal(index + 1);
    }
    candidate := NumberUntilFree(seen, base);
    seen' := seen + {candidate};
  }

  method NumberUntilFree(seen: set<string>, base: string) returns (candidate: string)
    ensures candidate == if base in seen then Numbered(base, FirstFree(seen, base, 2)) else base
  {
    candidate := base;
    var n := 2;
    while candidate in seen
      invariant 2 <= n
      invariant if n == 2 then candidate == base else base in seen && candidate == Numbered(base, n - 1)
      invariant n > 2 ==> FirstFree(seen, base, n - 1) == FirstFree(seen, base, 2)
      decreases if n == 2 then |seen| + 1 else |Untried(seen, base, n - 1)|
    {
      if n > 2 {
        CollisionUsesUpAName(seen, base, n - 1);
      }
      candidate := Numbered(base, n);
      n := n + 1;
    }
  }

  // The names a set of files gets, in order: each is made unique among those before it.
  function NamesOf(names: seq<string>): (r: seq<string>)
    ensures |r| == |names|
  {
    if names == [] then []
    else
      var before := NamesOf(names[..|names| - 1]);
      before + [UniqueName(Elements(before), names[|names| - 1], |names| - 1)]
  }

  /** All names of a set are pairwise distinct. */
  lemma {:induction false} NamesDistinct(names: seq<string>)
    ensures forall i, j | 0 <= i < j < |names| :: NamesOf(names)[i] != NamesOf(names)[j]
  {
    if names != [] {
      var before := NamesOf(names[..|names| - 1]);
      NamesDistinct(names[..|names| - 1]);
      var last := UniqueName(Elements(before), names[|names| - 1], |names| - 1);
      assert forall i | 0 <= i < |before| :: before[i] in Elements(before);
      assert NamesOf(names) == before + [last];
    }
  }

  /** A set of names that is fine as it is stays as it is. */
  lemma {:induction false} NamesUnchanged(names: seq<string>)
    requires forall i | 0 <= i < |names| :: names[i] != ""
    requires forall i, j | 0 <= i < j < |names| :: names[i] != names[j]
    ensures NamesOf(names) == names
  {
    if names != [] {
      NamesUnchanged(names[..|names| - 1]);
    }
  }

  /** A name of a set is changed only when it is empty or collides. */
  lemma NameKeptWhenFree(seen: set<string>, name: string, index: nat)
    ensures UniqueName(seen, name, index) == name <==> name != "" && name !in seen
  {
    if name == "" {
      assert BaseName(name, index)[0] == 'd';
      if BaseName(name, index) in seen {
        NumberedNonEmpty(BaseName(name, index), FirstFree(seen, BaseName(name, index), 2));
      }
    }
  }

  lemma NumberedNonEmpty(name: string, n: nat)
    ensures Numbered(name, n) != ""
  {
    assert |" ("| == 2;
  }

  /** No object in a container goes without a name. */
  lemma NamesNonEmpty(names: seq<string>)
    ensures forall i | 0 <= i < |names| :: NamesOf(names)[i] != ""
  {
    if names != [] {
      NamesNonEmpty(names[..|names| - 1]);
      var seen := Elements(NamesOf(names[..|names| - 1]));
      var base := BaseName(names[|names| - 1], |names| - 1);
      if base in seen {
        NumberedNonEmpty(base, FirstFree(seen, base, 2));
      }
    }
  }

  // The default name of a bundle: its first file with the extension swapped.
  function BundleFilename(first: string): string {
    if first == "" then "container.asice"
    else
      var i := LastDot(first);
      if 0 < i then first[..i] + ".asice" else first + ".asice"
  }
}
