/**
 * The UID generator of api/utils/permutator.js.
 *
 * A Permutator holds a character set `n` and a count `k`; `next()` draws `k`
 * characters from distinct positions of `n` and joins them in draw order.
 * The random draws are injected: `choices[j]` is the index, into the pool of
 * characters not drawn yet, of the character taken at step `j`. A string is a
 * `seq<char>`, so joining the drawn one-character strings is the identity.
 */
module Permutator {
  import opened Common

  const Lowercase: string := "abcdefghijklmnopqrstuvwxyz"
  const Digits: string := "0123456789"

  /** `String.prototype.toUpperCase` on one character (ASCII letters only). */
  function ToUpper(c: char): char {
    if 'a' <= c <= 'z' then (c as int - 32) as char else c
  }

  /** `s.split('').map((c) => c.toUpperCase())`. */
  function Uppercased(s: string): string
  {
    seq(|s|, i requires 0 <= i < |s| => ToUpper(s[i]))
  }

  /** The flattened default character set: lower case, upper case, digits. */
  function DefaultAlphabet(): string {
    Lowercase + Uppercased(Lowercase) + Digits
  }

  /** A generator configuration, fixed once constructed. */
  datatype Permutator = Permutator(n: seq<char>, k: int)

  /**
   * The constructor `Permutator(n, k)`: `n || default` and `k || 8`.
   * An array is always truthy, so only an absent `n` takes the default;
   * `k` takes the default when absent (`None`) or zero.
   */
  function New(n: Option<seq<char>>, k: Option<int>): Permutator
  {
    Permutator(
      match n { case Some(given) => given case None => DefaultAlphabet() },
      match k { case Some(given) => if given != 0 then given else 8 case None => 8 })
  }

  /** The generator built at module load of the controller: `new Permutator()`. */
  function Default(): Permutator {
    New(None, None)
  }

  /** The number of characters `_.sample` draws: a negative count draws none. */
  function Draws(p: Permutator): nat {
    if p.k < 0 then 0 else p.k
  }

  /**
   * What the constructor's defaults mean for a uid: it has 8 characters when
   * `k` is absent or 0, the caller's `k` when that is positive and none when
   * it is negative; a caller's `n` is the character set as given, and
   * `new Permutator()` is the same generator as `new Permutator(undefined, 0)`.
   */
  lemma ConstructorDraws(n: Option<seq<char>>, k: Option<int>)
    ensures Draws(New(n, k)) ==
      if k.None? || k == Some(0) then 8 else if k.value < 0 then 0 else k.value
    ensures n.Some? ==> New(n, k).n == n.value
    ensures n.None? ==> New(n, k).n == Default().n
    ensures Default() == New(None, Some(0))
  {
  }

  /** The pool left once the element at position `c` has been drawn. */
  function RemoveAt<T>(s: seq<T>, c: nat): (r: seq<T>)
    requires c < |s|
    ensures |r| == |s| - 1
    ensures multiset(r) == multiset(s) - multiset{s[c]}
    ensures forall x :: x in r ==> x in s
    ensures Distinct(s) ==> Distinct(r) && s[c] !in r
  {
    RemoveAtMultiset(s, c);
    RemoveAtDistinct(s, c);
    s[..c] + s[c+1..]
  }

  lemma RemoveAtMultiset<T>(s: seq<T>, c: nat)
    requires c < |s|
    ensures multiset(s[..c] + s[c+1..]) == multiset(s) - multiset{s[c]}
  {
    assert s == s[..c] + [s[c]] + s[c+1..];
  }

  lemma RemoveAtDistinct<T>(s: seq<T>, c: nat)
    requires c < |s|
    ensures Distinct(s) ==> Distinct(s[..c] + s[c+1..]) && s[c] !in s[..c] + s[c+1..]
  {
    var r := s[..c] + s[c+1..];
    assert forall i :: 0 <= i < c ==> r[i] == s[i];
    assert forall i :: c <= i < |r| ==> r[i] == s[i + 1];
  }

  /** Every draw is an index into the pool that remains at its step. */
  predicate ValidChoices(poolSize: nat, choices: seq<nat>) {
    |choices| <= poolSize &&
    forall j :: 0 <= j < |choices| ==> choices[j] < poolSize - j
  }

  /**
   * Sampling without replacement: take the chosen element out of the pool,
   * then sample the rest from what remains.
   */
  function Sample<T>(pool: seq<T>, choices: seq<nat>): (r: seq<T>)
    requires ValidChoices(|pool|, choices)
    ensures |r| == |choices|
    ensures multiset(r) <= multiset(pool)
    ensures forall x :: x in r ==> x in pool
    ensures Distinct(pool) ==> Distinct(r)
    decreases |choices|
  {
    if choices == [] then []
    else
      var c := choices[0];
      var rest := Sample(RemoveAt(pool, c), choices[1..]);
      DrawStep(pool, c, rest);
      [pool[c]] + rest
  }

  /** One step of `Sample`: prefixing the drawn element keeps the contract. */
  lemma DrawStep<T>(pool: seq<T>, c: nat, rest: seq<T>)
    requires c < |pool|
    requires multiset(rest) <= multiset(RemoveAt(pool, c))
    requires Distinct(RemoveAt(pool, c)) ==> Distinct(rest)
    ensures multiset([pool[c]] + rest) <= multiset(pool)
    ensures forall x :: x in [pool[c]] + rest ==> x in pool
    ensures Distinct(pool) ==> Distinct([pool[c]] + rest)
  {
    var r := [pool[c]] + rest;
    assert multiset(r) == multiset{pool[c]} + multiset(rest);
    forall x | x in r ensures x in pool {
      assert x in multiset(r);
    }
    if Distinct(pool) {
      forall i, j | 0 <= i < j < |r| ensures r[i] != r[j] {
        if i == 0 {
          assert r[j] in multiset(rest);
        }
      }
    }
  }

  /** `next()`: `_.sample(this.n, this.k).join('')`. */
  function Next(p: Permutator, choices: seq<nat>): (uid: string)
    requires p.k <= |p.n|
    requires |choices| == Draws(p) && ValidChoices(|p.n|, choices)
    ensures |uid| == Draws(p)
    ensures forall c :: c in uid ==> c in p.n
    ensures Distinct(p.n) ==> Distinct(uid)
  {
    Sample(p.n, choices)
  }

  /** Every position in `idx` is below `size`. */
  predicate InRange(idx: seq<nat>, size: nat) {
    forall j :: 0 <= j < |idx| ==> idx[j] < size
  }

  /** The elements of `s` at positions `idx`, in that order. */
  function Pick<T>(s: seq<T>, idx: seq<nat>): (r: seq<T>)
    requires InRange(idx, |s|)
  {
    seq(|idx|, j requires 0 <= j < |idx| => s[idx[j]])
  }

  /** The positions `0, 1, ..., size - 1`. */
  function Positions(size: nat): (r: seq<nat>)
    ensures |r| == size && Distinct(r) && InRange(r, size)
    ensures forall j :: 0 <= j < size ==> r[j] == j
  {
    seq(size, j requires 0 <= j < size => j)
  }

  /** Positions drawn from positions below `size` are below `size`. */
  lemma SampleInRange(idx: seq<nat>, choices: seq<nat>, size: nat)
    requires InRange(idx, size) && ValidChoices(|idx|, choices)
    ensures InRange(Sample(idx, choices), size)
  {
    var r := Sample(idx, choices);
    forall j | 0 <= j < |r| ensures r[j] < size {
      assert r[j] in r;
      var k :| 0 <= k < |idx| && idx[k] == r[j];
    }
  }

  /** Looking up after removing position `c` is removing after looking up. */
  lemma PickRemoveAt<T>(s: seq<T>, idx: seq<nat>, c: nat)
    requires InRange(idx, |s|) && c < |idx|
    ensures InRange(RemoveAt(idx, c), |s|)
    ensures Pick(s, RemoveAt(idx, c)) == RemoveAt(Pick(s, idx), c)
  {
    var a := Pick(s, RemoveAt(idx, c));
    var b := RemoveAt(Pick(s, idx), c);
    forall j | 0 <= j < |a| ensures a[j] == b[j] {
      if j < c {
        assert b[j] == Pick(s, idx)[j];
      } else {
        assert b[j] == Pick(s, idx)[j + 1];
      }
    }
  }

  /** Sampling commutes with looking elements up by position. */
  lemma {:induction false} SamplePick<T>(s: seq<T>, idx: seq<nat>, choices: seq<nat>)
    requires InRange(idx, |s|) && ValidChoices(|idx|, choices)
    ensures InRange(Sample(idx, choices), |s|)
    ensures Sample(Pick(s, idx), choices) == Pick(s, Sample(idx, choices))
    decreases |choices|
  {
    SampleInRange(idx, choices, |s|);
    if choices != [] {
      var c := choices[0];
      PickRemoveAt(s, idx, c);
      SamplePick(s, RemoveAt(idx, c), choices[1..]);
      SampleInRange(RemoveAt(idx, c), choices[1..], |s|);
      PickCons(s, idx[c], Sample(RemoveAt(idx, c), choices[1..]));
    }
  }

  /** Looking up a position prefixed to `rest`. */
  lemma PickCons<T>(s: seq<T>, i: nat, rest: seq<nat>)
    requires i < |s| && InRange(rest, |s|)
    ensures InRange([i] + rest, |s|)
    ensures Pick(s, [i] + rest) == [s[i]] + Pick(s, rest)
  {
  }

  /**
   * `next()` reads the character set at distinct positions: the UID is the
   * character set looked up at the positions the same draws take from
   * `0, ..., |n| - 1`, and those positions are pairwise distinct.
   */
  lemma NextReadsDistinctPositions(p: Permutator, choices: seq<nat>)
    requires p.k <= |p.n|
    requires |choices| == Draws(p) && ValidChoices(|p.n|, choices)
    ensures var pos := Sample(Positions(|p.n|), choices);
      && Distinct(pos)
      && InRange(pos, |p.n|)
      && Next(p, choices) == Pick(p.n, pos)
  {
    var all := Positions(|p.n|);
    assert Pick(p.n, all) == p.n;
    SamplePick(p.n, all, choices);
  }

  /** The code points of the three blocks of the default set. */
  lemma BlockCodes()
    ensures |Lowercase| == 26 && |Digits| == 10
    ensures forall i :: 0 <= i < 26 ==> Lowercase[i] as int == 'a' as int + i
    ensures forall i :: 0 <= i < 26 ==> "ABCDEFGHIJKLMNOPQRSTUVWXYZ"[i] as int == 'A' as int + i
    ensures forall i :: 0 <= i < 10 ==> Digits[i] as int == '0' as int + i
  {
  }

  /** Upper-casing the lower-case letters gives the upper-case letters in order. */
  lemma UppercasedLetters()
    ensures Uppercased(Lowercase) == "ABCDEFGHIJKLMNOPQRSTUVWXYZ"
  {
    BlockCodes();
    var u := Uppercased(Lowercase);
    forall i | 0 <= i < 26 ensures u[i] == "ABCDEFGHIJKLMNOPQRSTUVWXYZ"[i] {
      assert u[i] as int == 'A' as int + i;
    }
  }

  /** The default character set: 62 distinct symbols, lower case, upper case, digits. */
  lemma DefaultAlphabetLayout()
    ensures |DefaultAlphabet()| == 62
    ensures DefaultAlphabet()[..26] == "abcdefghijklmnopqrstuvwxyz"
    ensures DefaultAlphabet()[26..52] == "ABCDEFGHIJKLMNOPQRSTUVWXYZ"
    ensures DefaultAlphabet()[52..] == "0123456789"
    ensures Distinct(DefaultAlphabet())
  {
    UppercasedLetters();
    BlockCodes();
    var upper := "ABCDEFGHIJKLMNOPQRSTUVWXYZ";
    var a := DefaultAlphabet();
    assert a == Lowercase + upper + Digits;
    assert a[..26] == Lowercase;
    assert a[26..52] == upper;
    assert a[52..] == Digits;
    forall i, j | 0 <= i < j < 62 ensures a[i] != a[j] {
      var ci := if i < 26 then 'a' as int + i else if i < 52 then 'A' as int + (i - 26) else '0' as int + (i - 52);
      var cj := if j < 26 then 'a' as int + j else if j < 52 then 'A' as int + (j - 26) else '0' as int + (j - 52);
      assert a[i] as int == ci by {
        if i < 26 { assert a[i] == Lowercase[i]; }
        else if i < 52 { assert a[i] == upper[i - 26]; }
        else { assert a[i] == Digits[i - 52]; }
      }
      assert a[j] as int == cj by {
        if j < 26 { assert a[j] == Lowercase[j]; }
        else if j < 52 { assert a[j] == upper[j - 26]; }
        else { assert a[j] == Digits[j - 52]; }
      }
    }
  }

  predicate IsAlphanumeric(c: char) {
    'a' <= c <= 'z' || 'A' <= c <= 'Z' || '0' <= c <= '9'
  }

  /**
   * The controller's `new Permutator()` yields UIDs of exactly 8 distinct
   * letters and digits.
   */
  lemma DefaultNextShape(choices: seq<nat>)
    requires |choices| == 8 && ValidChoices(62, choices)
    ensures Default().k == 8 && |Default().n| == 62
    ensures |Next(Default(), choices)| == 8
    ensures Distinct(Next(Default(), choices))
    ensures forall c :: c in Next(Default(), choices) ==> IsAlphanumeric(c)
  {
    DefaultAlphabetLayout();
    BlockCodes();
    UppercasedLetters();
    var a := DefaultAlphabet();
    assert a == Lowercase + "ABCDEFGHIJKLMNOPQRSTUVWXYZ" + Digits;
    forall c | c in a ensures IsAlphanumeric(c) {
      var i :| 0 <= i < 62 && a[i] == c;
      if i < 26 { assert a[i] == Lowercase[i]; }
      else if i < 52 { assert a[i] == "ABCDEFGHIJKLMNOPQRSTUVWXYZ"[i - 26]; }
      else { assert a[i] == Digits[i - 52]; }
    }
  }
}
