/** What the decoder makes of a comma-joined list of labels. */
module LogLabels {
  import opened LogFormat

  // ---- comma-joined lists ----

  function Joined(words: seq<string>): string {
    if |words| == 0 then "" else if |words| == 1 then words[0] else words[0] + [','] + Joined(words[1..])
  }

  predicate NoCommas(w: string) {
    forall i :: 0 <= i < |w| ==> w[i] != ','
  }

  lemma {:induction false} SplitWord(w: string)
    requires NoCommas(w)
    ensures Split(w) == [w]
  {
    if |w| > 0 {
      SplitWord(w[1..]);
      assert [w[0]] + w[1..] == w;
    }
  }

  lemma {:induction false} SplitFirst(w: string, rest: string)
    requires NoCommas(w)
    ensures Split(w + [','] + rest) == [w] + Split(rest)
  {
    var s := w + [','] + rest;
    if |w| == 0 {
      assert s[1..] == rest;
    } else {
      assert s[1..] == w[1..] + [','] + rest;
      SplitFirst(w[1..], rest);
      assert [w[0]] + w[1..] == w;
    }
  }

  /** Words without commas are the pieces of their list. */
  lemma {:induction false} SplitJoined(words: seq<string>)
    requires |words| > 0 && forall i :: 0 <= i < |words| ==> NoCommas(words[i])
    ensures Split(Joined(words)) == words
  {
    if |words| == 1 {
      SplitWord(words[0]);
    } else {
      SplitFirst(words[0], Joined(words[1..]));
      SplitJoined(words[1..]);
      assert [words[0]] + words[1..] == words;
    }
  }

  lemma {:induction false} JoinedFirst(c: char, words: seq<string>)
    requires |words| > 0
    ensures Joined([[c] + words[0]] + words[1..]) == [c] + Joined(words)
  {
    assert ([[c] + words[0]] + words[1..])[1..] == words[1..];
    if |words| > 1 {
      assert [c] + (words[0] + [','] + Joined(words[1..])) == ([c] + words[0]) + [','] + Joined(words[1..]);
    }
  }

  /** And the pieces of any text are a list of it. */
  lemma {:induction false} JoinedSplit(s: string)
    ensures Joined(Split(s)) == s
  {
    if |s| > 0 {
      JoinedSplit(s[1..]);
      assert s == [s[0]] + s[1..];
      if s[0] == ',' {
        assert Split(s)[1..] == Split(s[1..]);
        assert Joined(Split(s)) == "" + [','] + Joined(Split(s[1..]));
      } else {
        JoinedFirst(s[0], Split(s[1..]));
      }
    }
  }

  // ---- stripping ----

  predicate Blank(s: string) {
    forall i :: 0 <= i < |s| ==> Space(s[i])
  }

  /** The word between blanks: it neither starts nor ends with one. */
  predicate Tight(w: string) {
    |w| > 0 ==> !Space(w[0]) && !Space(w[|w| - 1])
  }

  /** Stripping takes off the blanks around a word and nothing else. */
  lemma {:induction false} TrimmedExactly(before: string, w: string, after: string)
    requires Blank(before) && Tight(w) && Blank(after)
    ensures Trimmed(before + w + after) == w
    decreases |before| + |after|
  {
    var s := before + w + after;
    if |before| > 0 {
      assert s[1..] == before[1..] + w + after;
      TrimmedExactly(before[1..], w, after);
    } else if |w| > 0 && |after| > 0 {
      assert s[..|s| - 1] == before + w + after[..|after| - 1];
      TrimmedExactly(before, w, after[..|after| - 1]);
    } else if |after| > 0 {
      assert s[1..] == before + w + after[1..];
      TrimmedExactly(before, w, after[1..]);
    } else {
      assert s == w;
    }
  }

  // ---- labels ----

  predicate IsLabel(w: string) {
    |w| > 0 && Visible(w) && NoCommas(w)
  }

  predicate AreLabels(words: seq<string>) {
    forall i :: 0 <= i < |words| ==> IsLabel(words[i])
  }

  lemma {:induction false} LabelsOfWords(words: seq<string>)
    requires AreLabels(words)
    ensures Labels(words) == words
  {
    if |words| > 0 {
      var w := words[0];
      assert IsLabel(w);
      TrimmedExactly("", w, "");
      assert "" + w + "" == w;
      LabelsOfWords(words[1..]);
      assert [w] + words[1..] == words;
    }
  }

  /** The decoder's labels of a comma-joined list are exactly that list, in order. */
  lemma {:induction false} LabelsRoundTrip(words: seq<string>)
    requires |words| > 0 && AreLabels(words)
    ensures Labels(Split(Joined(words))) == words
  {
    SplitJoined(words);
    LabelsOfWords(words);
  }
}
