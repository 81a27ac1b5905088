/** POS-tag normalisation and the tagging clean-up of `__tag_and_parse_corpus`.

    Sentence splitting (`sent_tokenize`), word splitting (`word_tokenize`) and tagging
    (`pos_tag`) are NLTK calls: the sentences are given, the two others are oracles. */
module Tagging {
  import opened Wrappers
  import opened Text

  /** A (word, tag) pair as `pos_tag` produces it. */
  type TaggedWord = (string, string)

  /** The characters the third alternative `[^+*-]+` excludes. */
  predicate IsTagMarker(c: char)
  {
    c == '+' || c == '*' || c == '-'
  }

  /** The length of the longest run of non-marker characters at the start of `s`
      (the greedy `[^+*-]+`). */
  function LeadingRun(s: string): (n: nat)
    ensures n <= |s|
    ensures forall i :: 0 <= i < n ==> !IsTagMarker(s[i])
    ensures n < |s| ==> IsTagMarker(s[n])
  {
    if s == [] || IsTagMarker(s[0]) then 0 else 1 + LeadingRun(s[1..])
  }

  /** `re.compile(r'[*]|--|[^+*-]+').match(tag).group()`: the alternatives are tried in order
      at the start of the tag; `None` where nothing matches (`.group()` on None raises). */
  function NormalizeTag(tag: string): Option<string>
  {
    if |tag| > 0 && tag[0] == '*' then Some("*")
    else if |tag| >= 2 && tag[0] == '-' && tag[1] == '-' then Some("--")
    else if |tag| > 0 && !IsTagMarker(tag[0]) then Some(tag[..LeadingRun(tag)])
    else None
  }

  /** The match is a non-empty prefix of the tag, and one of the three alternatives: `*`,
      `--`, or a maximal run of non-marker characters. Nothing matches exactly when the tag
      is empty or starts with `+`, or with a `-` that is not followed by another. */
  lemma NormalizeTagSpec(tag: string)
    ensures var r := NormalizeTag(tag);
      && (r.Some? ==> 0 < |r.value| <= |tag| && r.value == tag[..|r.value|])
      && (r.Some? ==>
            || r.value == "*"
            || r.value == "--"
            || ((forall i :: 0 <= i < |r.value| ==> !IsTagMarker(r.value[i]))
                && (|r.value| < |tag| ==> IsTagMarker(tag[|r.value|]))))
      && (r.None? <==> tag == [] || tag[0] == '+' || (tag[0] == '-' && (|tag| < 2 || tag[1] != '-')))
  {
  }

  /** Normalising a normalised tag gives it back. */
  lemma NormalizeTagIdempotent(tag: string)
    requires NormalizeTag(tag).Some?
    ensures NormalizeTag(NormalizeTag(tag).value) == NormalizeTag(tag)
  {
    if !(tag[0] == '*') && !(|tag| >= 2 && tag[0] == '-' && tag[1] == '-') {
      var r := tag[..LeadingRun(tag)];
      assert NormalizeTag(tag).value == r;
      assert !IsTagMarker(r[0]);
      assert LeadingRun(r) == |r|;
      assert r[..|r|] == r;
    }
  }

  /** Brown-style tags that match and the tags with no match. */
  lemma NormalizeTagExamples()
    ensures NormalizeTag("NN+TL-HL") == Some("NN")
    ensures NormalizeTag("*") == Some("*")
    ensures NormalizeTag("--") == Some("--")
    ensures NormalizeTag("*-HL") == Some("*")
    ensures NormalizeTag("-NONE-") == None
    ensures NormalizeTag("+X") == None
  {
    assert LeadingRun("NN+TL-HL") == 2 by {
      assert "NN+TL-HL"[1..] == "N+TL-HL";
      assert "N+TL-HL"[1..] == "+TL-HL";
    }
    assert "NN+TL-HL"[..2] == "NN";
  }

  /** The set of the words of a tagged sentence. */
  function WordsOf(s: seq<TaggedWord>): set<string>
  {
    if s == [] then {} else WordsOf(s[..|s| - 1]) + {s[|s| - 1].0}
  }

  /** The set of the tags of a tagged sentence. */
  function TagsOf(s: seq<TaggedWord>): set<string>
  {
    if s == [] then {} else TagsOf(s[..|s| - 1]) + {s[|s| - 1].1}
  }

  /** The words of all sentences. */
  function AllWords(ss: seq<seq<TaggedWord>>): set<string>
  {
    if ss == [] then {} else AllWords(ss[..|ss| - 1]) + WordsOf(ss[|ss| - 1])
  }

  /** The tags of all sentences. */
  function AllTags(ss: seq<seq<TaggedWord>>): set<string>
  {
    if ss == [] then {} else AllTags(ss[..|ss| - 1]) + TagsOf(ss[|ss| - 1])
  }

  /** `WordsOf` holds exactly the words that occur in the sentence. */
  lemma {:induction false} WordsOfMembers(s: seq<TaggedWord>, x: string)
    ensures x in WordsOf(s) <==> exists i :: 0 <= i < |s| && s[i].0 == x
  {
    if s != [] {
      var p := s[..|s| - 1];
      WordsOfMembers(p, x);
      if x in WordsOf(p) {
        var i :| 0 <= i < |p| && p[i].0 == x;
        assert s[i].0 == x;
      }
      if exists i :: 0 <= i < |s| && s[i].0 == x {
        var i :| 0 <= i < |s| && s[i].0 == x;
        if i < |p| {
          assert p[i].0 == x;
        }
      }
    }
  }

  /** `c` is `s` with each tag replaced by its normalised form and the words kept. */
  ghost predicate CleanedFrom(s: seq<TaggedWord>, c: seq<TaggedWord>)
  {
    && |c| == |s|
    && forall i :: 0 <= i < |s| ==> c[i].0 == s[i].0 && NormalizeTag(s[i].1) == Some(c[i].1)
  }

  /** The apostrophe removal applied before word splitting: `sentence.replace('\'', '')`. */
  function WithoutApostrophes(sentence: string): (r: string)
    ensures forall i :: 0 <= i < |r| ==> r[i] != '\''
    ensures forall c :: c != '\'' ==> multiset(r)[c] == multiset(sentence)[c]
  {
    WithoutSpec(sentence, {'\''});
    Without(sentence, {'\''})
  }

  /** `[nltk.pos_tag(nltk.word_tokenize(s.replace('\'', ''))) for s in sent_tokens]`. */
  function TaggedTokens(sentences: seq<string>, wordTokenize: string -> seq<string>,
                        posTag: seq<string> -> seq<TaggedWord>): (r: seq<seq<TaggedWord>>)
    ensures |r| == |sentences|
    ensures forall k :: 0 <= k < |sentences| ==> r[k] == posTag(wordTokenize(WithoutApostrophes(sentences[k])))
  {
    seq(|sentences|, k requires 0 <= k < |sentences| => posTag(wordTokenize(WithoutApostrophes(sentences[k]))))
  }

  /** The clean-up loop (generator.py:112-123). Each sentence is rewritten in place, tag by
      tag, and appended to `cleaned` once all its tags are normalised; `symbols` gets every
      word seen and `tagSet` every normalised tag. A tag with no match raises from
      `.group()`: the loop ends and the sets built so far are returned, so the sentence
      being processed is missing from `cleaned` while its words up to the failing one are
      in `symbols` and its earlier tags are in `tagSet`. The sets stand for `list(tag_set)` and
      `list(symbols)`, whose order Python leaves unspecified. */
  method TagAndParseCorpus(sentences: seq<string>, wordTokenize: string -> seq<string>,
                           posTag: seq<string> -> seq<TaggedWord>)
    returns (cleaned: seq<seq<TaggedWord>>, tagSet: set<string>, symbols: set<string>)
    ensures var tagged := TaggedTokens(sentences, wordTokenize, posTag);
      && |cleaned| <= |tagged|
      && (forall j :: 0 <= j < |cleaned| ==> CleanedFrom(tagged[j], cleaned[j]))
      && tagSet >= AllTags(cleaned)
      && (|cleaned| == |tagged| ==> symbols == AllWords(tagged) && tagSet == AllTags(cleaned))
      && (|cleaned| < |tagged| ==>
            var bad := tagged[|cleaned|];
            var p := FirstUnmatched(bad);
            && p < |bad|
            && symbols == AllWords(tagged[..|cleaned|]) + WordsOf(bad[..p + 1])
            && tagSet == AllTags(cleaned) + TagsOf(NormalizedPrefix(bad, p)))
  {
    var tagged := TaggedTokens(sentences, wordTokenize, posTag);
    tagSet, symbols, cleaned := {}, {}, [];
    var j := 0;
    while j < |tagged|
      invariant j <= |tagged| && |cleaned| == j
      invariant forall k :: 0 <= k < j ==> CleanedFrom(tagged[k], cleaned[k])
      invariant symbols == AllWords(tagged[..j]) && tagSet == AllTags(cleaned)
    {
      var sequence, matched;
      sequence, symbols, tagSet, matched := NormalizeSentence(tagged[j], symbols, tagSet);
      if !matched {
        assert tagged[..|cleaned|] == tagged[..j];
        return;
      }
      AppendCleaned(tagged, cleaned, j, sequence);
      cleaned := cleaned + [sequence];
      j := j + 1;
    }
    assert tagged[..j] == tagged;
  }

  /** Appending a fully cleaned sentence keeps the loop's account of the words and tags. */
  lemma AppendCleaned(tagged: seq<seq<TaggedWord>>, cleaned: seq<seq<TaggedWord>>, j: nat, sequence: seq<TaggedWord>)
    requires j < |tagged| && |cleaned| == j
    requires forall k :: 0 <= k < j ==> CleanedFrom(tagged[k], cleaned[k])
    requires CleanedFrom(tagged[j], sequence)
    ensures forall k :: 0 <= k < j + 1 ==> CleanedFrom(tagged[k], (cleaned + [sequence])[k])
    ensures AllTags(cleaned + [sequence]) == AllTags(cleaned) + TagsOf(sequence)
    ensures AllWords(tagged[..j + 1]) == AllWords(tagged[..j]) + WordsOf(tagged[j][..|tagged[j]|])
  {
    var extended := cleaned + [sequence];
    assert extended[..j] == cleaned;
    forall k | 0 <= k < j + 1
      ensures CleanedFrom(tagged[k], extended[k])
    {
      if k < j {
        assert extended[k] == cleaned[k];
      }
    }
    assert tagged[..j + 1][..j] == tagged[..j];
    assert tagged[j][..|tagged[j]|] == tagged[j];
  }

  /** The inner loop of the clean-up (generator.py:115-121) on one sentence: each tag is
      replaced by its normalised form in place and each word added to `symbols`, until a tag
      has no match (`matched` false) or the sentence ends. */
  method NormalizeSentence(sentence: seq<TaggedWord>, symbols0: set<string>, tagSet0: set<string>)
    returns (sequence: seq<TaggedWord>, symbols: set<string>, tagSet: set<string>, matched: bool)
    ensures var p := FirstUnmatched(sentence);
      && (matched <==> p == |sentence|)
      && symbols == symbols0 + WordsOf(sentence[..if matched then p else p + 1])
      && tagSet == tagSet0 + TagsOf(NormalizedPrefix(sentence, p))
      && (matched ==> sequence == NormalizedPrefix(sentence, p) && CleanedFrom(sentence, sequence))
  {
    sequence, symbols, tagSet := sentence, symbols0, tagSet0;
    var i := 0;
    while i < |sequence|
      invariant i <= |sequence| == |sentence|
      invariant forall q :: 0 <= q < i ==> NormalizeTag(sentence[q].1).Some?
      invariant sequence[..i] == NormalizedPrefix(sentence, i)
      invariant sequence[i..] == sentence[i..]
      invariant symbols == symbols0 + WordsOf(sentence[..i])
      invariant tagSet == tagSet0 + TagsOf(sequence[..i])
    {
      var (word, tag) := sequence[i];
      assert sequence[i] == sentence[i];
      assert sentence[..i + 1][..i] == sentence[..i];
      symbols := symbols + {word};
      var normalized := NormalizeTag(tag);
      if normalized.None? {
        // `.group()` on a failed match raises AttributeError
        assert FirstUnmatched(sentence) == i;
        return sequence, symbols, tagSet, false;
      }
      tagSet := tagSet + {normalized.value};
      NormalizedPrefixStep(sentence, i);
      sequence := sequence[i := (word, normalized.value)];
      assert sequence[..i + 1] == sequence[..i] + [(word, normalized.value)];
      assert sequence[..i + 1][..i] == sequence[..i];
      i := i + 1;
    }
    NormalizedPrefixCleaned(sentence, i);
    assert sequence == sequence[..i];
    assert FirstUnmatched(sentence) == i;
    matched := true;
  }

  /** The position of the first item whose tag has no match, `|s|` when every tag matches. */
  function FirstUnmatched(s: seq<TaggedWord>): (p: nat)
    ensures p <= |s|
    ensures forall q :: 0 <= q < p ==> NormalizeTag(s[q].1).Some?
    ensures p < |s| ==> NormalizeTag(s[p].1).None?
  {
    if s == [] || NormalizeTag(s[0].1).None? then 0 else 1 + FirstUnmatched(s[1..])
  }

  /** The first `p` items of `s`, each tag normalised. */
  function NormalizedPrefix(s: seq<TaggedWord>, p: nat): (r: seq<TaggedWord>)
    requires p <= |s|
    requires forall q :: 0 <= q < p ==> NormalizeTag(s[q].1).Some?
    ensures |r| == p
    ensures forall q :: 0 <= q < p ==> r[q] == (s[q].0, NormalizeTag(s[q].1).value)
  {
    seq(p, q requires 0 <= q < p => (s[q].0, NormalizeTag(s[q].1).value))
  }

  lemma NormalizedPrefixStep(s: seq<TaggedWord>, p: nat)
    requires p < |s|
    requires forall q :: 0 <= q <= p ==> NormalizeTag(s[q].1).Some?
    ensures NormalizedPrefix(s, p + 1) == NormalizedPrefix(s, p) + [(s[p].0, NormalizeTag(s[p].1).value)]
  {
  }

  lemma NormalizedPrefixCleaned(s: seq<TaggedWord>, p: nat)
    requires p == |s|
    requires forall q :: 0 <= q < p ==> NormalizeTag(s[q].1).Some?
    ensures CleanedFrom(s, NormalizedPrefix(s, p))
  {
  }
}
