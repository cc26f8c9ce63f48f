/**
 * `temperament_to_attributes`: a free-text temperament (or group behaviour)
 * becomes a list of words: lower-cased, punctuation dropped, split on white space.
 */
module Attributes {
  import opened Wrappers
  import opened Text

  /** `text.translate(str.maketrans("", "", string.punctuation))`. */
  function RemovePunctuation(s: string): (r: string)
    ensures forall c :: c in r ==> c in s && !IsPunctuation(c)
    ensures forall c :: c in s && !IsPunctuation(c) ==> c in r
  {
    if s == [] then []
    else if IsPunctuation(s[0]) then RemovePunctuation(s[1..])
    else [s[0]] + RemovePunctuation(s[1..])
  }

  /** Removing punctuation works piece by piece: order and repetitions are kept. */
  lemma {:induction false} RemovePunctuationAppend(a: string, b: string)
    ensures RemovePunctuation(a + b) == RemovePunctuation(a) + RemovePunctuation(b)
    decreases |a|
  {
    if a == [] {
      assert a + b == b;
    } else {
      assert (a + b)[0] == a[0];
      assert (a + b)[1..] == a[1..] + b;
      RemovePunctuationAppend(a[1..], b);
    }
  }

  /** One character: dropped when it is punctuation, kept otherwise. */
  lemma RemovePunctuationOfChar(c: char)
    ensures RemovePunctuation([c]) == if IsPunctuation(c) then [] else [c]
  {
    assert [c][1..] == [];
  }

  /** A string with no punctuation comes through unchanged. */
  lemma {:induction false} RemovePunctuationOfClean(s: string)
    requires forall i :: 0 <= i < |s| ==> !IsPunctuation(s[i])
    ensures RemovePunctuation(s) == s
    decreases |s|
  {
    if s != [] {
      RemovePunctuationOfClean(s[1..]);
    }
  }

  /** The length of the run of non-space characters that starts `s`. */
  function WordLength(s: string): (n: nat)
    ensures n <= |s|
    ensures forall i :: 0 <= i < n ==> !IsSpace(s[i])
    ensures n < |s| ==> IsSpace(s[n])
  {
    if s == [] || IsSpace(s[0]) then 0 else 1 + WordLength(s[1..])
  }

  /** A word as `split()` returns it: non-empty and free of white space. */
  predicate IsWord(w: string) {
    w != [] && forall i :: 0 <= i < |w| ==> !IsSpace(w[i])
  }

  /** `s.split()`: the maximal runs of non-space characters, in order. */
  function SplitWords(s: string): (r: seq<string>)
    ensures forall w :: w in r ==> IsWord(w)
    ensures forall w, c :: w in r && c in w ==> c in s
    decreases |s|
  {
    if s == [] then []
    else if IsSpace(s[0]) then SplitWords(s[1..])
    else
      var n := WordLength(s);
      [s[..n]] + SplitWords(s[n..])
  }

  /** `" ".join(words)`. */
  function JoinWords(words: seq<string>): string {
    if words == [] then ""
    else if |words| == 1 then words[0]
    else words[0] + " " + JoinWords(words[1..])
  }

  lemma WordLengthOfWord(w: string, rest: string)
    requires IsWord(w) && (rest == [] || IsSpace(rest[0]))
    ensures WordLength(w + rest) == |w|
  {
    var s := w + rest;
    assert forall i :: 0 <= i < |w| ==> s[i] == w[i];
    assert rest != [] ==> s[|w|] == rest[0];
  }

  /** White space before the text is skipped: `split()` drops it, however much there is. */
  lemma SplitSkipsSpace(c: char, rest: string)
    requires IsSpace(c)
    ensures SplitWords([c] + rest) == SplitWords(rest)
  {
    assert ([c] + rest)[1..] == rest;
  }

  /** A word ended by white space or by the end of the text is the first word `split()` gives. */
  lemma SplitOfWord(w: string, rest: string)
    requires IsWord(w) && (rest == [] || IsSpace(rest[0]))
    ensures SplitWords(w + rest) == [w] + SplitWords(rest)
  {
    var s := w + rest;
    WordLengthOfWord(w, rest);
    assert s[0] == w[0];
    assert s[..|w|] == w;
    assert s[|w|..] == rest;
  }

  /** Splitting a space-joined list of words gives the words back. */
  lemma {:induction false} SplitJoin(words: seq<string>)
    requires forall i :: 0 <= i < |words| ==> IsWord(words[i])
    ensures SplitWords(JoinWords(words)) == words
    decreases |words|
  {
    if words != [] {
      var w := words[0];
      if |words| == 1 {
        WordLengthOfWord(w, []);
        assert w + [] == w;
        assert w[|w|..] == [];
      } else {
        var rest := JoinWords(words[1..]);
        var s := w + " " + rest;
        WordLengthOfWord(w, " " + rest);
        assert s == w + (" " + rest);
        assert s[..|w|] == w;
        assert s[|w|..] == " " + rest;
        assert (" " + rest)[1..] == rest;
        SplitJoin(words[1..]);
        assert SplitWords(s[|w|..]) == SplitWords(rest);
      }
    }
  }

  /** `temperament_to_attributes(text)`; None is Python's `None`. */
  function TemperamentToAttributes(text: Option<string>): (r: seq<string>)
    ensures text == None || text == Some("") ==> r == []
    ensures forall w :: w in r ==> IsWord(w)
    ensures forall w, c :: w in r && c in w ==> !IsUpper(c) && !IsPunctuation(c) && !IsSpace(c)
  {
    match text
    case None => []
    case Some(t) =>
      if t == "" then []
      else
        var cleaned := RemovePunctuation(Lower(t));
        var words := SplitWords(cleaned);
        assert forall c :: c in cleaned ==> !IsUpper(c);
        words
  }

  /** A word of the attribute list: non-empty, lower-case, free of punctuation and white space. */
  predicate IsAttribute(w: string) {
    IsWord(w) && forall i :: 0 <= i < |w| ==> !IsUpper(w[i]) && !IsPunctuation(w[i])
  }

  /** The words of a joined list are no capital, no punctuation, when each word is an attribute. */
  lemma {:induction false} JoinAttributesClean(words: seq<string>)
    requires forall i :: 0 <= i < |words| ==> IsAttribute(words[i])
    ensures forall i :: 0 <= i < |JoinWords(words)| ==>
      !IsUpper(JoinWords(words)[i]) && !IsPunctuation(JoinWords(words)[i])
    decreases |words|
  {
    if |words| > 1 {
      JoinAttributesClean(words[1..]);
      var s := JoinWords(words);
      var w := words[0];
      var rest := JoinWords(words[1..]);
      assert s == w + " " + rest;
      forall i | 0 <= i < |s|
        ensures !IsUpper(s[i]) && !IsPunctuation(s[i])
      {
        if i < |w| {
          assert s[i] == w[i];
        } else if i > |w| {
          assert s[i] == rest[i - |w| - 1];
        }
      }
    }
  }

  /**
   * The meaning of `temperament_to_attributes`: the text of a space-joined list of
   * attribute words converts back to exactly those words, in order.
   */
  lemma AttributesOfJoinedWords(words: seq<string>)
    requires forall i :: 0 <= i < |words| ==> IsAttribute(words[i])
    ensures TemperamentToAttributes(Some(JoinWords(words))) == words
  {
    var t := JoinWords(words);
    if words != [] {
      assert |words[0]| > 0;
      assert |t| > 0 by {
        if |words| > 1 {
          assert t == words[0] + " " + JoinWords(words[1..]);
        }
      }
      JoinAttributesClean(words);
      LowerOfLowercase(t);
      RemovePunctuationOfClean(t);
      SplitJoin(words);
    }
  }

  /** A punctuation mark between two clean pieces simply goes. */
  lemma RemoveBetween(x: string, p: char, y: string)
    requires RemovePunctuation(x) == x && RemovePunctuation(y) == y && IsPunctuation(p)
    ensures RemovePunctuation(x + ([p] + y)) == x + y
  {
    RemovePunctuationAppend([p], y);
    RemovePunctuationOfChar(p);
    assert [] + y == y;
    RemovePunctuationAppend(x, [p] + y);
  }

  /** Clean text with a space on either side stays clean. */
  lemma RemovePunctuationPadded(a: string)
    requires forall i :: 0 <= i < |a| ==> !IsPunctuation(a[i])
    ensures RemovePunctuation(a + " ") == a + " "
    ensures RemovePunctuation(" " + a) == " " + a
  {
    RemovePunctuationOfChar(' ');
    RemovePunctuationOfClean(a);
    RemovePunctuationAppend(a, " ");
    RemovePunctuationAppend(" ", a);
  }

  /** Removing the punctuation of "a p b" leaves "a  b". */
  lemma RemoveSpacedPunctuation(a: string, p: char, b: string)
    requires IsAttribute(a) && IsAttribute(b) && IsPunctuation(p)
    ensures RemovePunctuation(a + (" " + ([p] + (" " + b)))) == a + ("  " + b)
  {
    SpacedForms(a, p, b);
    RemovePunctuationPadded(a);
    RemovePunctuationPadded(b);
    RemoveBetween(a + " ", p, " " + b);
  }

  /** The ways of grouping "a p b" and "a  b" that the proofs above use. */
  lemma SpacedForms(a: string, p: char, b: string)
    ensures (a + " ") + ([p] + (" " + b)) == a + (" " + ([p] + (" " + b)))
    ensures (a + " ") + (" " + b) == a + ("  " + b)
    ensures a + " " + [p] + " " + b == a + (" " + ([p] + (" " + b)))
  {
  }

  /** "a p b" has no capital, so lower-casing leaves it as it is. */
  lemma LowerSpacedPunctuation(a: string, p: char, b: string)
    requires IsAttribute(a) && IsAttribute(b) && IsPunctuation(p)
    ensures Lower(a + (" " + ([p] + (" " + b)))) == a + (" " + ([p] + (" " + b)))
  {
    var t := a + (" " + ([p] + (" " + b)));
    forall i | 0 <= i < |t| ensures !IsUpper(t[i]) {
      if i < |a| { assert t[i] == a[i]; }
      else if i > |a| + 2 { assert t[i] == b[i - |a| - 3]; }
    }
    LowerOfLowercase(t);
  }

  /** Two words separated by two spaces split into those two words. */
  lemma SplitDoubleSpaced(a: string, b: string)
    requires IsWord(a) && IsWord(b)
    ensures SplitWords(a + ("  " + b)) == [a, b]
  {
    SplitOfWord(a, "  " + b);
    assert ("  " + b) == [' '] + (" " + b);
    SplitSkipsSpace(' ', " " + b);
    assert (" " + b) == [' '] + b;
    SplitSkipsSpace(' ', b);
    assert b + "" == b;
    SplitOfWord(b, "");
  }

  /**
   * A punctuation mark standing alone between two words ("shy - friendly") leaves
   * a double space once removed, and `split()` still gives just the two words.
   */
  lemma SpacedPunctuationDropped(a: string, p: char, b: string)
    requires IsAttribute(a) && IsAttribute(b) && IsPunctuation(p)
    ensures TemperamentToAttributes(Some(a + " " + [p] + " " + b)) == [a, b]
  {
    SpacedForms(a, p, b);
    LowerSpacedPunctuation(a, p, b);
    RemoveSpacedPunctuation(a, p, b);
    SplitDoubleSpaced(a, b);
  }
}
