/**
 * The one-time password generator of the manager's admin-registration
 * view: the alphabet, random.shuffle and random.choice as functions of a
 * stream of random draws, and the in-place shuffle on arrays.
 */
module Passwords {

  /** Python's string.ascii_letters and string.digits. */
  const ASCII_LETTERS: string := "abcdefghijklmnopqrstuvwxyzABCDEFGHIJKLMNOPQRSTUVWXYZ"
  const DIGITS: string := "0123456789"

  /** The characters a generated password is drawn from: 72 of them. */
  const ALPHABET: string := ASCII_LETTERS + DIGITS + "!@#$%^&*()"

  /** The length of a generated password. */
  const PASSWORD_LENGTH: nat := 25

  /**
   * A stream of random draws. Draw i reduced modulo n stands for the
   * i-th randbelow(n) the random module makes; every draw is allowed.
   */
  type Draws = nat -> nat

  /** Exchange the elements at i and j. */
  function Swap<T>(s: seq<T>, i: nat, j: nat): (r: seq<T>)
    requires i < |s| && j < |s|
    ensures |r| == |s|
  {
    s[i := s[j]][j := s[i]]
  }

  /**
   * random.shuffle from position i down to position 1: position i is
   * exchanged with a position drawn below i + 1.
   */
  function ShuffleDown<T>(s: seq<T>, i: int, draws: Draws): (r: seq<T>)
    requires i < |s|
    ensures |r| == |s|
    decreases i
  {
    if i <= 0 then s
    else ShuffleDown(Swap(s, i, draws(i) % (i + 1)), i - 1, draws)
  }

  /** Each exchange keeps the elements, so the shuffle is a permutation. */
  lemma {:induction false} ShuffleDownPermutes<T>(s: seq<T>, i: int, draws: Draws)
    requires i < |s|
    ensures multiset(ShuffleDown(s, i, draws)) == multiset(s)
    decreases i
  {
    if i > 0 {
      var j := draws(i) % (i + 1);
      assert multiset(Swap(s, i, j)) == multiset(s);
      ShuffleDownPermutes(Swap(s, i, j), i - 1, draws);
    }
  }

  /** random.shuffle of the whole sequence: a permutation of it. */
  function Shuffled<T>(s: seq<T>, draws: Draws): (r: seq<T>)
    ensures |r| == |s|
    ensures multiset(r) == multiset(s)
  {
    ShuffleDownPermutes(s, |s| - 1, draws);
    ShuffleDown(s, |s| - 1, draws)
  }

  /** n calls of random.choice on chars, in order: each picks a character of chars. */
  function Picks(chars: seq<char>, draws: Draws, n: nat): (r: seq<char>)
    requires |chars| > 0
    ensures |r| == n
    ensures forall k :: 0 <= k < n ==> r[k] in chars
  {
    if n == 0 then []
    else Picks(chars, draws, n - 1) + [chars[draws(n - 1) % |chars|]]
  }

  /**
   * Whatever the draws, a password picked from a permutation of an
   * alphabet and then shuffled has the fixed length and only characters
   * of that alphabet.
   */
  lemma GeneratedPasswordShape(alphabet: seq<char>, chars: seq<char>, choices: Draws, mix: Draws)
    requires |alphabet| > 0 && multiset(chars) == multiset(alphabet)
    ensures |chars| == |alphabet|
    ensures var password := Shuffled(Picks(chars, choices, PASSWORD_LENGTH), mix);
      && |password| == PASSWORD_LENGTH
      && forall k :: 0 <= k < |password| ==> password[k] in alphabet
  {
    assert |chars| == |multiset(chars)| == |multiset(alphabet)| == |alphabet|;
    var picked := Picks(chars, choices, PASSWORD_LENGTH);
    var password := Shuffled(picked, mix);
    forall k | 0 <= k < |password|
      ensures password[k] in alphabet
    {
      var c := password[k];
      assert c in multiset(password);
      assert c in multiset(picked);
      assert c in picked;
      var m :| 0 <= m < |picked| && picked[m] == c;
      assert c in chars;
      assert c in multiset(chars);
      assert c in multiset(alphabet);
    }
  }

  /** random.shuffle on a list, in place. */
  method Shuffle<T>(a: array<T>, draws: Draws)
    modifies a
    ensures a[..] == Shuffled(old(a[..]), draws)
  {
    ghost var goal := Shuffled(a[..], draws);
    var i := a.Length - 1;
    while i > 0
      invariant i < a.Length
      invariant ShuffleDown(a[..], i, draws) == goal
      decreases i
    {
      var j := draws(i) % (i + 1);
      ghost var before := a[..];
      var t := a[i];
      a[i] := a[j];
      a[j] := t;
      assert a[..] == Swap(before, i, j);
      i := i - 1;
    }
  }

  /** random.shuffle on a list that is then read off as a sequence. */
  method ShuffleList<T(0)>(s: seq<T>, draws: Draws) returns (r: seq<T>)
    ensures r == Shuffled(s, draws)
  {
    var list := new T[|s|](k requires 0 <= k < |s| => s[k]);
    assert forall k :: 0 <= k < |s| ==> list[k] == s[k];
    assert list[..] == s;
    Shuffle(list, draws);
    r := list[..];
  }
}
