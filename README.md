# Blocks, procs and callbacks over a list

The repository is one teaching script, `example.rb`. It shows Ruby blocks and
procs being passed to routines that walk a list and call them once per element.
The only live code there is `looper(callback, list)`, run with two procs,
`doubler` (x * 2) and `tripler` (x * 3). The rest of the file is commented-out
exercises built on the same pattern:

- a generator `doubler(num)` that yields five successive doublings to its block;
- `find_words`, which keeps the words its block answers true for;
- `map`, which collects its block's results;
- two `select` calls that split a word list into palindromes and non-palindromes;
- `palindromes(words, &block)`, which calls an optional block on each palindrome;
- a one-shot `doubler(num, &callback)`, which hands `num * 2` to its callback.

The model is written in two modules.

- `Builtins` (builtins.dfy) holds the Ruby built-ins the script relies on, as
  pure functions on sequences. `Apply` is `Array#map`, `Select` is
  `Array#select`, `Reverse` is `String#reverse`. `Doublings` lists the values a
  `5.times` loop passes to a block when it doubles a running number after each
  visit. `Apply` and `Select` are recursive. Their contracts, and the lemmas next
  to them, state what the callers need: length, order, index-wise values,
  subsequence, multiset contents and partition. `Doublings` gets a closed form.
- `Blocks` (blocks.dfy) holds the script's own routines. Each routine that
  builds an array with `<<` inside `each`, or that reassigns a counter inside
  `5.times`, is a `method` with a `for` loop and invariants. Each such method is
  proved equal to the matching `Builtins` function. The procs and the one-shot
  doubler are single expressions, so they are functions. Each top-level sample
  call in the script is a method or a lemma that states the sample's result.

A block's side effect is its `puts`. The model turns it into the sequence of
values the block returns, one per call, in call order. Every routine also
returns the value the Ruby method itself returns. That value is not always the
obvious one:

- `looper` returns `list`, because `list.each` is its last expression.
- The generator `doubler` returns 5, because `5.times` returns its receiver.
- `palindromes` returns `words` and drops the array it built, because
  `words.each` is its last expression.

Ruby integers never overflow, so `int` models them exactly. Ruby's truthiness
test on `yield(word)` in `find_words` is modelled by a predicate returning `bool`.

`palindromes` takes an optional block, modelled as an `Option`; the block is
called only when one is given. The samples use the script's own lists: seven
words for the palindrome selects and `%w[hello from ruby]` for the upcase map.
The sample maps at example.rb:55 and 59 call Ruby's own `Array#map` on the
array, so their models apply `Builtins.Apply`, not `Blocks.Map`.

## Model

| member | source | states |
|---|---|---|
| Builtins.Apply | example.rb:54-59 | `list.map { block }` has one result per element, and result i is the block applied to element i |
| Builtins.ApplySnoc | example.rb:48-50 | one more element at the end adds exactly that element's image at the end |
| Builtins.Select | example.rb:24-25 | `list.select { block }` is never longer than the list, and the block holds for everything it keeps |
| Builtins.SelectMembers | example.rb:24-25 | a value is selected if and only if it occurs in the list and the block holds for it |
| Builtins.SelectIsSubsequence | example.rb:24-25 | the selection is a subsequence of the list, so relative order is kept |
| Builtins.SelectMultiset | example.rb:24-25 | each value the block accepts is kept as often as it occurs, and every other value is dropped |
| Builtins.SelectSnoc | example.rb:15-19 | one more element at the end extends the selection by that element exactly when the block accepts it |
| Builtins.SelectPartition | example.rb:24-25 | selecting by a block and by its negation splits the list: the lengths add up and the multisets add up to the list's |
| Builtins.DoublingsAt | example.rb:33-39 | the k-th value the doubling loop yields is num * 2^k |
| Blocks.Looper | example.rb:90-92 | emits exactly one value per item, in list order, and value i is callback(list[i]); an empty list emits nothing; returns the list |
| Blocks.ProcsAgreeOnlyOnZeros | example.rb:94-100 | the doubler and tripler procs give the same outputs over a list if and only if every item is 0 |
| Blocks.LooperScript | example.rb:102-105 | `looper(doubler, [1,2,3])` emits 2, 4, 6 and `looper(tripler, [1,2,3])` emits 3, 6, 9 |
| Blocks.DoublerGenerator | example.rb:33-39 | the block is called exactly 5 times, call k on num * 2^k, in order; the method returns 5 |
| Blocks.DoublingsStepIsDoubler | example.rb:36-37 | each yielded value after the first is the doubler proc applied to the one before |
| Blocks.DoublerGeneratorScript | example.rb:41-42 | starting from 5, the block sees 5, 10, 20, 40, 80 |
| Blocks.FindWords | example.rb:13-21 | the collected words are exactly `words.select { block }`: kept in order, each kept word accepted by the block |
| Blocks.Map | example.rb:46-52 | the result has the list's length and element i is the block applied to item i; so an empty list maps to an empty list |
| Blocks.UpcaseSamples | example.rb:54-55 | ASCII upcasing turns hello, from and ruby into HELLO, FROM and RUBY |
| Blocks.UpcaseMapScript | example.rb:54-56 | `Array#map` of upcase over `%w[hello from ruby]` gives HELLO, FROM, RUBY |
| Blocks.SquareMapScript | example.rb:58-60 | `Array#map` of `curr * curr` over [1, 2, 3] gives [1, 4, 9] |
| Blocks.PalindromeMirror | example.rb:24 | `w == w.reverse` holds if and only if every letter equals its mirror letter |
| Blocks.PalindromicSample | example.rb:23-24 | mom, bob, tattarrattat and detartrated are palindromes |
| Blocks.NonPalindromicSample | example.rb:23-25 | hello, monday and ruby are not palindromes |
| Blocks.SampleWordsClassified | example.rb:23-25 | which positions of the sample list hold palindromes |
| Blocks.PalindromeSelectsPartition | example.rb:24-25 | the palindrome and non-palindrome selects split any list: lengths and multisets add up, and each word is in exactly one of them |
| Blocks.PalindromeSelectExample | example.rb:23-24 | on the sample list the palindromes are mom, bob, tattarrattat, detartrated, in that order |
| Blocks.NotPalindromeSelectExample | example.rb:23-25 | on the sample list the non-palindromes are hello, monday, ruby, in that order |
| Blocks.Palindromes | example.rb:62-70 | block present: called once per palindrome, in list order, on that word; block absent: never called; always returns words unchanged |
| Blocks.PalindromesScript | example.rb:72-74 | `palindromes(list)` with no block calls nothing and returns the whole list |
| Blocks.DoublerWithCallbackScript | example.rb:81-82 | with number = 5, the block receives 10 and sees the captured number 5 |

The procs `Blocks.Doubler` and `Blocks.Tripler` (example.rb:94-100), the
one-shot `Blocks.DoublerWithCallback` (example.rb:76-79), the `w == w.reverse`
block `Blocks.IsPalindrome` and its negation `Blocks.IsNotPalindrome`
(example.rb:24-25) are single expressions. Each one is defined as a function
with no contract of its own, since any contract would repeat its body. The
lemmas and methods above state what follows from them. The one-shot doubler
has only its sample call, `Blocks.DoublerWithCallbackScript`.

## Left out

- `puts` output (example.rb:27-30, 56, 60, 74, 82, 91) is not modelled as I/O. Each printed value is the element at its position in a returned sequence.
- The string interpolation in the callback's message (example.rb:82) is formatting. The model keeps the two values it interpolates, as a pair.
- `display` and `block.class` (example.rb:84-88) are reflection on Ruby's `Proc` class and have no behaviour to state.
- `String#upcase` (example.rb:55) follows Unicode case mapping. The model uses an ASCII-only stand-in, which agrees with it on the sample words.
- Blocks versus procs versus lambdas, and capture by reference, are not modelled. Callbacks are Dafny function values, which capture by value. The script never changes a captured variable after capture, so nothing observable is lost.
- A missing block is ruled out by the types for the generator `doubler`, `find_words` and `map` (Ruby raises LocalJumpError at `yield`, example.rb:5, 16, 49) and for the one-shot `doubler` and `looper` (NoMethodError on `nil.call`, example.rb:78, 91). There the block or callback is a plain function value, so the model has no such error path. Only `palindromes` keeps its optional block.
- A callback that raises an exception is not modelled. The callback is a total Dafny function. The script's blocks only multiply, compare and upcase, and none of these can fail.
- The generator `doubler(num)` is defined twice, at example.rb:2-8 and at example.rb:33-39, with the same body. `Blocks.DoublerGenerator` models both, once.
