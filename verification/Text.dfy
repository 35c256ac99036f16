/** Joining and splitting of texts over any alphabet. */
module Text {

  /** strings.Join. */
  function Join<T>(parts: seq<seq<T>>, sep: seq<T>): seq<T> {
    if parts == [] then []
    else if |parts| == 1 then parts[0]
    else parts[0] + sep + Join(parts[1..], sep)
  }

  /** Split at every occurrence of one letter; the empty text has one empty part. */
  function Split<T(==)>(s: seq<T>, sep: T): (parts: seq<seq<T>>)
    ensures parts != []
  {
    if s == [] then [[]]
    else
      var rest := Split(s[1..], sep);
      if s[0] == sep then [[]] + rest else [[s[0]] + rest[0]] + rest[1..]
  }

  lemma {:induction false} JoinAppend<T>(xs: seq<seq<T>>, ys: seq<seq<T>>, sep: seq<T>)
    requires xs != [] && ys != []
    ensures Join(xs + ys, sep) == Join(xs, sep) + sep + Join(ys, sep)
  {
    assert (xs + ys)[1..] == xs[1..] + ys;
    if |xs| > 1 {
      JoinAppend(xs[1..], ys, sep);
      assert Join(xs + ys, sep) == xs[0] + sep + (Join(xs[1..], sep) + sep + Join(ys, sep));
    } else {
      assert xs[1..] + ys == ys;
    }
  }

  lemma {:induction false} SplitWord<T>(word: seq<T>, sep: T)
    requires sep !in word
    ensures Split(word, sep) == [word]
  {
    if word != [] {
      SplitWord(word[1..], sep);
      assert word[0] in word && [word[0]] + word[1..] == word;
    }
  }

  lemma {:induction false} SplitFirst<T>(word: seq<T>, rest: seq<T>, sep: T)
    requires sep !in word
    ensures Split(word + [sep] + rest, sep) == [word] + Split(rest, sep)
  {
    var s := word + [sep] + rest;
    if word == [] {
      assert s == [sep] + rest;
    } else {
      SplitFirst(word[1..], rest, sep);
      assert s[1..] == word[1..] + [sep] + rest;
      assert word[0] in word && [word[0]] + word[1..] == word;
    }
  }

  /** Words without the separator survive being joined and split. */
  lemma {:induction false} SplitJoin<T>(words: seq<seq<T>>, sep: T)
    requires words != [] && forall w :: w in words ==> sep !in w
    ensures Split(Join(words, [sep]), sep) == words
  {
    assert words[0] in words;
    if |words| == 1 {
      SplitWord(words[0], sep);
    } else {
      assert forall w :: w in words[1..] ==> w in words;
      SplitJoin(words[1..], sep);
      SplitFirst(words[0], Join(words[1..], [sep]), sep);
    }
  }
}
