/**
 The routines of example.rb that take a block or a proc and call it while
 walking a list. A block's side effect (its `puts`) is modelled as the
 sequence of values the block returns, one per call, in call order; every
 routine also returns what the Ruby method itself returns.
 */
module Blocks {
  import opened Builtins

  /** A block argument that may be left off (`&block` is nil when no block is given). */
  datatype Option<T> = None | Some(value: T)

  /** The proc bound to `doubler` at the top level. */
  function Doubler(num: int): int
  {
    num * 2
  }

  /** The proc bound to `tripler` at the top level. */
  function Tripler(num: int): int
  {
    num * 3
  }

  /**
   `looper(callback, list)`: calls the callback on each item in list order and
   emits each result; `list.each` hands back the list itself.
   */
  method Looper<T, R>(callback: T -> R, list: seq<T>) returns (ret: seq<T>, emitted: seq<R>)
    ensures ret == list
    ensures |emitted| == |list|
    ensures forall i :: 0 <= i < |list| ==> emitted[i] == callback(list[i])
    ensures emitted == Apply(callback, list)
  {
    emitted := [];
    for i := 0 to |list|
      invariant |emitted| == i
      invariant forall k :: 0 <= k < i ==> emitted[k] == callback(list[k])
    {
      emitted := emitted + [callback(list[i])];
    }
    ret := list;
  }

  /** Two procs from one template differ exactly on the inputs where 2 * n and 3 * n differ. */
  lemma ProcsAgreeOnlyOnZeros(list: seq<int>)
    ensures Apply(Doubler, list) == Apply(Tripler, list) <==> forall i :: 0 <= i < |list| ==> list[i] == 0
  {
  }

  /** The top-level calls `looper(doubler, arr)` and `looper(tripler, arr)` on arr = [1, 2, 3]. */
  method LooperScript() returns (doubled: seq<int>, tripled: seq<int>)
    ensures doubled == [2, 4, 6]
    ensures tripled == [3, 6, 9]
  {
    var arr := [1, 2, 3];
    var _, d := Looper(Doubler, arr);
    var _, t := Looper(Tripler, arr);
    doubled, tripled := d, t;
  }

  /**
   The generator `doubler(num)`: five times, yields the running number to the
   block and then doubles it. `5.times` hands back 5, which is what the method returns.
   */
  method DoublerGenerator<R>(num: int, block: int -> R) returns (ret: int, outputs: seq<R>)
    ensures ret == 5
    ensures |outputs| == 5
    ensures forall k :: 0 <= k < 5 ==> outputs[k] == block(num * Pow2(k))
    ensures outputs == Apply(block, Doublings(num, 5))
  {
    var currNumber := num;
    outputs := [];
    for i := 0 to 5
      invariant currNumber == num * Pow2(i)
      invariant |outputs| == i
      invariant forall k :: 0 <= k < i ==> outputs[k] == block(num * Pow2(k))
    {
      outputs := outputs + [block(currNumber)];
      currNumber := currNumber * 2;
    }
    ret := 5;
    forall k | 0 <= k < 5 ensures outputs[k] == Apply(block, Doublings(num, 5))[k] {
      DoublingsAt(num, 5, k);
    }
  }

  /** Each value the generator yields after the first is the `doubler` proc applied to the one before. */
  lemma {:induction false} DoublingsStepIsDoubler(num: int, n: nat, k: nat)
    requires k + 1 < n
    ensures Doublings(num, n)[k + 1] == Doubler(Doublings(num, n)[k])
  {
    DoublingsAt(num, n, k);
    DoublingsAt(num, n, k + 1);
    assert num * Pow2(k + 1) == num * Pow2(k) * 2;
  }

  /** `doubler(starting_number) { |d| puts d }` with starting_number = 5: the block sees 5, 10, 20, 40, 80. */
  method DoublerGeneratorScript() returns (printed: seq<int>)
    ensures printed == [5, 10, 20, 40, 80]
  {
    var startingNumber := 5;
    var _, out := DoublerGenerator(startingNumber, d => d);
    printed := out;
  }

  /** `find_words(words) { |word| ... }`: collects, in order, the words the block answers true for. */
  method FindWords<T(==)>(words: seq<T>, pred: T -> bool) returns (results: seq<T>)
    ensures results == Select(pred, words)
  {
    results := [];
    for i := 0 to |words|
      invariant results == Select(pred, words[..i])
    {
      assert words[..i + 1] == words[..i] + [words[i]];
      SelectSnoc(pred, words[..i], words[i]);
      if pred(words[i]) {
        results := results + [words[i]];
      }
    }
    assert words[..|words|] == words;
  }

  /** `map(list) { |item| ... }`: collects the block's result for each item, in order. */
  method Map<T, R>(list: seq<T>, f: T -> R) returns (result: seq<R>)
    ensures |result| == |list|
    ensures forall i :: 0 <= i < |list| ==> result[i] == f(list[i])
    ensures result == Apply(f, list)
  {
    result := [];
    for i := 0 to |list|
      invariant |result| == i
      invariant forall k :: 0 <= k < i ==> result[k] == f(list[k])
    {
      result := result + [f(list[i])];
    }
  }

  /** An ASCII-only stand-in for `String#upcase` on one character. */
  function UpcaseChar(c: char): char
  {
    if 'a' <= c <= 'z' then (c as int - 32) as char else c
  }

  /** An ASCII-only stand-in for `String#upcase`. */
  function Upcase(s: string): string
  {
    Apply(UpcaseChar, s)
  }

  /**
   The ASCII upcasing of the three sample words, letter by letter. The words are
   passed in, fixed by the requires, so that the verifier does not evaluate `Upcase` on literals eagerly.
   */
  lemma UpcaseSamples(hello: string, from: string, ruby: string)
    requires hello == "hello" && from == "from" && ruby == "ruby"
    ensures Upcase(hello) == "HELLO" && Upcase(from) == "FROM" && Upcase(ruby) == "RUBY"
  {
  }

  /** `str_list.map { |curr| curr.upcase }` on `%w[hello from ruby]`: a call of the built-in `Array#map`, not of `map(list)`. */
  method UpcaseMapScript() returns (strResult: seq<string>)
    ensures strResult == ["HELLO", "FROM", "RUBY"]
  {
    var strList := ["hello", "from", "ruby"];
    UpcaseSamples(strList[0], strList[1], strList[2]);
    strResult := Apply(Upcase, strList);
  }

  /** `num_list.map { |curr| curr * curr }` on [1, 2, 3]: again the built-in `Array#map`. */
  method SquareMapScript() returns (numResult: seq<int>)
    ensures numResult == [1, 4, 9]
  {
    var numList := [1, 2, 3];
    numResult := Apply((curr: int) => curr * curr, numList);
  }

  /** A word reads the same backwards (`w == w.reverse`). */
  predicate IsPalindrome(w: string)
  {
    w == Reverse(w)
  }

  /** The block `{ |w| w != w.reverse }`. */
  predicate IsNotPalindrome(w: string)
  {
    w != Reverse(w)
  }

  /** A palindrome is a word whose i-th letter from the front equals its i-th letter from the back. */
  lemma PalindromeMirror(w: string)
    ensures IsPalindrome(w) <==> forall i :: 0 <= i < |w| ==> w[i] == w[|w| - 1 - i]
  {
  }

  /** The two selects on the word list split it: each word goes to exactly one side. */
  lemma PalindromeSelectsPartition(list: seq<string>)
    ensures |Select(IsPalindrome, list)| + |Select(IsNotPalindrome, list)| == |list|
    ensures multiset(Select(IsPalindrome, list)) + multiset(Select(IsNotPalindrome, list)) == multiset(list)
    ensures forall i :: 0 <= i < |list| ==> (list[i] in Select(IsPalindrome, list) <==> list[i] !in Select(IsNotPalindrome, list))
  {
    SelectPartition(IsPalindrome, IsNotPalindrome, list);
  }

  /** The word list of the palindrome samples. */
  const SampleWords: seq<string> := ["hello", "mom", "bob", "monday", "tattarrattat", "ruby", "detartrated"]

  /**
   mom, bob, tattarrattat and detartrated read the same backwards: each letter matches its mirror.
   The words are passed in, fixed by the requires, rather than written inline:
   a string literal as a direct argument makes the verifier evaluate `Reverse` on it eagerly, which is costly.
   */
  lemma PalindromicSample(w: string)
    requires w == "mom" || w == "bob" || w == "tattarrattat" || w == "detartrated"
    ensures IsPalindrome(w)
  {
  }

  /**
   hello, monday and ruby do not: their first letter differs from their last.
   The words are passed in, fixed by the requires, rather than written inline:
   a string literal as a direct argument makes the verifier evaluate `Reverse` on it eagerly, which is costly.
   */
  lemma NonPalindromicSample(w: string)
    requires w == "hello" || w == "monday" || w == "ruby"
    ensures !IsPalindrome(w)
  {
    assert w[0] != w[|w| - 1];
    PalindromeMirror(w);
  }

  /**
   Which of the sample words are palindromes. The list is passed in, fixed by the
   requires, so that the verifier does not evaluate the selects on the literal eagerly.
   */
  lemma SampleWordsClassified(list: seq<string>)
    requires list == SampleWords
    ensures !IsPalindrome(list[0]) && IsPalindrome(list[1]) && IsPalindrome(list[2]) && !IsPalindrome(list[3])
    ensures IsPalindrome(list[4]) && !IsPalindrome(list[5]) && IsPalindrome(list[6])
  {
    NonPalindromicSample(list[0]);
    PalindromicSample(list[1]);
    PalindromicSample(list[2]);
    NonPalindromicSample(list[3]);
    PalindromicSample(list[4]);
    NonPalindromicSample(list[5]);
    PalindromicSample(list[6]);
  }

  /**
   `palindromes = list.select { |w| w == w.reverse }` on the sample list keeps mom, bob, tattarrattat and detartrated.
   The list is passed in, fixed by the requires, as in SampleWordsClassified.
   */
  lemma PalindromeSelectExample(list: seq<string>)
    requires list == SampleWords
    ensures Select(IsPalindrome, list) == [list[1], list[2], list[4], list[6]]
    ensures Select(IsPalindrome, list) == ["mom", "bob", "tattarrattat", "detartrated"]
  {
    SampleWordsClassified(list);
    assert Select(IsPalindrome, list[6..]) == [list[6]] by { assert list[6..][0] == list[6] && list[6..][1..] == []; }
    assert Select(IsPalindrome, list[5..]) == [list[6]] by { assert list[5..][0] == list[5] && list[5..][1..] == list[6..]; }
    assert Select(IsPalindrome, list[4..]) == [list[4], list[6]] by { assert list[4..][0] == list[4] && list[4..][1..] == list[5..]; }
    assert Select(IsPalindrome, list[3..]) == [list[4], list[6]] by { assert list[3..][0] == list[3] && list[3..][1..] == list[4..]; }
    assert Select(IsPalindrome, list[2..]) == [list[2], list[4], list[6]] by { assert list[2..][0] == list[2] && list[2..][1..] == list[3..]; }
    assert Select(IsPalindrome, list[1..]) == [list[1], list[2], list[4], list[6]] by { assert list[1..][0] == list[1] && list[1..][1..] == list[2..]; }
  }

  /**
   `not_palindromes = list.select { |w| w != w.reverse }` on the sample list keeps hello, monday and ruby.
   The list is passed in, fixed by the requires, as in SampleWordsClassified.
   */
  lemma NotPalindromeSelectExample(list: seq<string>)
    requires list == SampleWords
    ensures Select(IsNotPalindrome, list) == [list[0], list[3], list[5]]
    ensures Select(IsNotPalindrome, list) == ["hello", "monday", "ruby"]
  {
    SampleWordsClassified(list);
    assert Select(IsNotPalindrome, list[6..]) == [] by { assert list[6..][0] == list[6] && list[6..][1..] == []; }
    assert Select(IsNotPalindrome, list[5..]) == [list[5]] by { assert list[5..][0] == list[5] && list[5..][1..] == list[6..]; }
    assert Select(IsNotPalindrome, list[4..]) == [list[5]] by { assert list[4..][0] == list[4] && list[4..][1..] == list[5..]; }
    assert Select(IsNotPalindrome, list[3..]) == [list[3], list[5]] by { assert list[3..][0] == list[3] && list[3..][1..] == list[4..]; }
    assert Select(IsNotPalindrome, list[2..]) == [list[3], list[5]] by { assert list[2..][0] == list[2] && list[2..][1..] == list[3..]; }
    assert Select(IsNotPalindrome, list[1..]) == [list[3], list[5]] by { assert list[1..][0] == list[1] && list[1..][1..] == list[2..]; }
  }

  /**
   `palindromes(words, &block)`: calls the block, when one is given, on each
   palindrome in order, and builds a list of the palindromes that it then drops:
   the last expression is `words.each`, so the method returns words.
   */
  method Palindromes<R>(words: seq<string>, block: Option<string -> R>) returns (ret: seq<string>, outputs: seq<R>)
    ensures ret == words
    ensures block.None? ==> outputs == []
    ensures block.Some? ==> outputs == Apply(block.value, Select(IsPalindrome, words))
  {
    var result := [];
    outputs := [];
    for i := 0 to |words|
      invariant result == Select(IsPalindrome, words[..i])
      invariant outputs == if block.Some? then Apply(block.value, result) else []
    {
      var word := words[i];
      assert words[..i + 1] == words[..i] + [word];
      SelectSnoc(IsPalindrome, words[..i], word);
      if word == Reverse(word) {
        if block.Some? {
          ApplySnoc(block.value, result, word);
          outputs := outputs + [block.value(word)];
        }
        result := result + [word];
      }
    }
    assert words[..|words|] == words;
    ret := words;
  }

  /** `palindromes = palindromes(list)` with no block: nothing is called and the list comes back whole. */
  method PalindromesScript() returns (palindromes: seq<string>, outputs: seq<()>)
    ensures palindromes == SampleWords
    ensures outputs == []
  {
    var list := SampleWords;
    palindromes, outputs := Palindromes<()>(list, None);
  }

  /** The one-shot `doubler(num, &callback)`: hands the callback num * 2 and returns what it returns. */
  function DoublerWithCallback<R>(num: int, callback: int -> R): R
  {
    callback(num * 2)
  }

  /**
   `doubler(number) { |d| puts "#{number} doubled is #{d}" }` with number = 5:
   the block captures number and receives 10. The message is modelled by the
   pair of values it interpolates.
   */
  method DoublerWithCallbackScript() returns (message: (int, int))
    ensures message == (5, 10)
  {
    var number := 5;
    message := DoublerWithCallback(number, d => (number, d));
  }
}
