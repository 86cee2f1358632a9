/** Output file names shared by both recording scripts: the decimal counter
    that Python's `%d` prints, the replacement of spaces by underscores, and
    the search for a name the output directory does not hold yet, which tries
    `stem + ext`, then `stem_0 + ext`, `stem_1 + ext`, and so on. */
module Naming {

  /** The character of one decimal digit. */
  function Digit(d: nat): (c: char)
    requires d < 10
    ensures '0' <= c <= '9'
  {
    ('0' as int + d) as char
  }

  /** The decimal digits of `n`, without sign or leading zeros, as `'%d' % n` prints them. */
  function Decimal(n: nat): (s: string)
    ensures 1 <= |s|
    ensures forall i :: 0 <= i < |s| ==> '0' <= s[i] <= '9'
    ensures n < 10 <==> |s| == 1
    decreases n
  {
    if n < 10 then [Digit(n)] else Decimal(n / 10) + [Digit(n % 10)]
  }

  /** The number a string of decimal digits denotes, most significant first. */
  function DigitsValue(s: string): nat
    requires forall i :: 0 <= i < |s| ==> '0' <= s[i] <= '9'
    decreases |s|
  {
    if s == [] then 0 else DigitsValue(s[..|s| - 1]) * 10 + (s[|s| - 1] as int - '0' as int)
  }

  /** `Decimal(n)` denotes `n` itself and has no leading zero. */
  lemma {:induction false} DecimalValue(n: nat)
    ensures DigitsValue(Decimal(n)) == n
    ensures |Decimal(n)| > 1 ==> Decimal(n)[0] != '0'
    decreases n
  {
    if 10 <= n {
      var s := Decimal(n);
      var p := Decimal(n / 10);
      DecimalValue(n / 10);
      assert s == p + [Digit(n % 10)];
      assert s[..|s| - 1] == p;
      assert s[0] == p[0];
    }
  }

  /** Two counters print the same only when they are equal, so the names
      tried one after the other are all different. */
  lemma {:induction false} DecimalInjective(a: nat, b: nat)
    requires Decimal(a) == Decimal(b)
    ensures a == b
    decreases a
  {
    if 10 <= a {
      var s := Decimal(a);
      assert s == Decimal(a / 10) + [Digit(a % 10)];
      assert s == Decimal(b / 10) + [Digit(b % 10)];
      assert Digit(a % 10) == s[|s| - 1] == Digit(b % 10);
      assert Decimal(a / 10) == s[..|s| - 1] == Decimal(b / 10);
      DecimalInjective(a / 10, b / 10);
    }
  }

  /** `s.replace(' ', '_')`. */
  function Underscored(s: string): (r: string)
    ensures |r| == |s|
    ensures ' ' !in r
    ensures forall i :: 0 <= i < |s| && s[i] != ' ' ==> r[i] == s[i]
    ensures forall i :: 0 <= i < |s| && s[i] == ' ' ==> r[i] == '_'
  {
    if s == [] then []
    else (if s[0] == ' ' then "_" else [s[0]]) + Underscored(s[1..])
  }

  /** `s.endswith(suffix)`. */
  predicate EndsWith(s: string, suffix: string)
  {
    |suffix| <= |s| && s[|s| - |suffix|..] == suffix
  }

  /** The files of a directory listing that end with `ext`: the only ones the
      name search looks at. */
  function WithExtension(listing: set<string>, ext: string): set<string>
  {
    set x | x in listing && EndsWith(x, ext)
  }

  /** The `i`-th name the search tries: `stem + ext` first, then
      `stem + "_" + str(i - 1) + ext`. */
  function Attempt(stem: string, ext: string, i: nat): string
  {
    if i == 0 then stem + ext else stem + "_" + Decimal(i - 1) + ext
  }

  lemma AttemptHasExtension(stem: string, ext: string, i: nat)
    ensures EndsWith(Attempt(stem, ext, i), ext)
  {
    var x := Attempt(stem, ext, i);
    assert x[|x| - |ext|..] == ext;
  }

  /** The names tried are pairwise different, so every step of the search
      rules out one more file of the directory. */
  lemma AttemptInjective(stem: string, ext: string, i: nat, j: nat)
    requires Attempt(stem, ext, i) == Attempt(stem, ext, j)
    ensures i == j
  {
    var x := Attempt(stem, ext, i);
    if i != 0 && j != 0 {
      var lo, hi := |stem| + 1, |x| - |ext|;
      assert x[lo..hi] == Decimal(i - 1);
      assert x == Attempt(stem, ext, j);
      assert x[lo..hi] == Decimal(j - 1);
      DecimalInjective(i - 1, j - 1);
    }
  }

  /** `name` is what the search returns: the first name tried that is not taken. */
  ghost predicate FirstFree(stem: string, ext: string, taken: set<string>, name: string)
  {
    exists k: nat :: name == Attempt(stem, ext, k) && name !in taken &&
                     forall i :: 0 <= i < k ==> Attempt(stem, ext, i) in taken
  }

  /** The search has one possible result: the output name is a function of
      the stem and the directory listing. */
  lemma {:induction false} FirstFreeUnique(stem: string, ext: string, taken: set<string>, a: string, b: string)
    requires FirstFree(stem, ext, taken, a) && FirstFree(stem, ext, taken, b)
    ensures a == b
  {
    var ka: nat :| a == Attempt(stem, ext, ka) && a !in taken &&
                   forall i :: 0 <= i < ka ==> Attempt(stem, ext, i) in taken;
    var kb: nat :| b == Attempt(stem, ext, kb) && b !in taken &&
                   forall i :: 0 <= i < kb ==> Attempt(stem, ext, i) in taken;
    assert ka == kb;
  }

  /** Filtering the listing by extension changes nothing for the search,
      because every name tried ends with the extension. */
  lemma FirstFreeInListing(stem: string, ext: string, listing: set<string>, name: string)
    requires FirstFree(stem, ext, WithExtension(listing, ext), name)
    ensures FirstFree(stem, ext, listing, name)
    ensures name !in listing
  {
    var d := WithExtension(listing, ext);
    var k: nat :| name == Attempt(stem, ext, k) && name !in d &&
                  forall i :: 0 <= i < k ==> Attempt(stem, ext, i) in d;
    AttemptHasExtension(stem, ext, k);
    assert name !in listing;
    assert forall i :: 0 <= i < k ==> Attempt(stem, ext, i) in listing;
  }

  /** Two searches in a row for the same stem, the first result added to the
      directory in between: the first gets `stem + ext`, the second the `_0`
      name. */
  lemma {:induction false} SecondSearchTakesZeroSuffix(stem: string, ext: string, first: string, second: string)
    requires FirstFree(stem, ext, {}, first)
    requires FirstFree(stem, ext, {first}, second)
    ensures first == stem + ext
    ensures second == stem + "_0" + ext
    ensures first != second
  {
    var k1: nat :| first == Attempt(stem, ext, k1) &&
                   forall i :: 0 <= i < k1 ==> Attempt(stem, ext, i) in {};
    assert k1 == 0;
    var k2: nat :| second == Attempt(stem, ext, k2) && second !in {first} &&
                   forall i :: 0 <= i < k2 ==> Attempt(stem, ext, i) in {first};
    assert k2 != 0;
    assert Attempt(stem, ext, 1) != first;
    assert k2 == 1;
    assert Decimal(0) == "0";
  }

  /** The names the search has tried after `n` steps. */
  ghost function Tried(stem: string, ext: string, n: nat): set<string>
  {
    if n == 0 then {} else Tried(stem, ext, n - 1) + {Attempt(stem, ext, n - 1)}
  }

  lemma {:induction false} NotYetTried(stem: string, ext: string, n: nat, m: nat)
    requires n <= m
    ensures Attempt(stem, ext, m) !in Tried(stem, ext, n)
  {
    if n > 0 {
      NotYetTried(stem, ext, n - 1, m);
      if Attempt(stem, ext, m) == Attempt(stem, ext, n - 1) {
        AttemptInjective(stem, ext, m, n - 1);
      }
    }
  }

  /** The loop of both scripts: starting from `stem + ext`, move to the next
      numbered name while the current one is taken. */
  method FreeName(stem: string, ext: string, taken: set<string>) returns (name: string)
    ensures name !in taken
    ensures FirstFree(stem, ext, taken, name)
  {
    name := stem + ext;
    var n := 0;
    while name in taken
      invariant name == Attempt(stem, ext, n)
      invariant forall i :: 0 <= i < n ==> Attempt(stem, ext, i) in taken
      invariant Tried(stem, ext, n) <= taken
      decreases |taken - Tried(stem, ext, n)|
    {
      NotYetTried(stem, ext, n, n);
      assert taken - Tried(stem, ext, n + 1) == (taken - Tried(stem, ext, n)) - {name};
      name := stem + "_" + Decimal(n) + ext;
      n := n + 1;
    }
  }
}
