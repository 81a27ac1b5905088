/** Sentence finishing and the record loops of the HMM and grammar generators
    (`generate_hmm_novel_text`, `generate_context_free_grammar_novel_text`).

    A sentence's body is joined from sampled or enumerated words; it is then stripped of
    punctuation, given one terminator drawn from `['. ', '! ', '? ']` and capitalised. A
    record is its sentences concatenated. The HMM sampler, the grammar enumerator and the
    terminator draws are oracles. */
module Finishing {
  import opened Wrappers
  import opened Text
  import opened Tagging

  /** `punct_selector`. */
  const Terminators: seq<string> := [". ", "! ", "? "]

  /** Case mapping never turns a punctuation character into a non-punctuation one or back. */
  lemma CaseKeepsPunctuation(c: char)
    ensures Upper(c) in Punctuation <==> c in Punctuation
    ensures Lower(c) in Punctuation <==> c in Punctuation
  {
  }

  /** The terminator `random.choice(punct_selector)` picks for draw `t`. */
  function Terminator(t: nat): (r: string)
    ensures r in Terminators
  {
    Terminators[t % 3]
  }

  /** `(body.translate(stop_symbols) + random.choice(punct_selector)).capitalize()`, where
      `t` is the terminator draw. */
  function FinishSentence(body: string, t: nat): string
  {
    Capitalize(Without(body, Punctuation) + Terminator(t))
  }

  /** A finished sentence is the stripped body and one terminator, capitalised: two
      characters longer than the stripped body, ending in a space after `.`, `!` or `?`, free
      of any other punctuation, and equal to stripped body plus terminator up to letter case. */
  lemma FinishSentenceShape(body: string, t: nat)
    ensures var r := FinishSentence(body, t);
      var stripped := Without(body, Punctuation);
      && |r| == |stripped| + 2
      && r[|r| - 1] == ' '
      && r[|r| - 2] == Terminator(t)[0]
      && r[|r| - 2] in {'.', '!', '?'}
      && (forall i :: 0 <= i < |r| - 2 ==> r[i] !in Punctuation)
      && LowerAll(r) == LowerAll(stripped + Terminator(t))
  {
    FinishSentenceEnd(body, t);
    FinishSentenceNoPunctuation(body, t);
    CapitalizeCaseInsensitive(Without(body, Punctuation) + Terminator(t));
  }

  lemma FinishSentenceEnd(body: string, t: nat)
    ensures var r := FinishSentence(body, t);
      && |r| == |Without(body, Punctuation)| + 2
      && r[|r| - 1] == ' '
      && r[|r| - 2] == Terminator(t)[0]
      && r[|r| - 2] in {'.', '!', '?'}
  {
    var x := Without(body, Punctuation) + Terminator(t);
    CapitalizeShape(x);
    assert x[|x| - 1] == ' ' && x[|x| - 2] == Terminator(t)[0];
  }

  lemma FinishSentenceNoPunctuation(body: string, t: nat)
    ensures var r := FinishSentence(body, t);
      forall i :: 0 <= i < |r| - 2 ==> r[i] !in Punctuation
  {
    var stripped := Without(body, Punctuation);
    WithoutSpec(body, Punctuation);
    var x := stripped + Terminator(t);
    CapitalizeShape(x);
    forall i | 0 <= i < |x| - 2
      ensures Capitalize(x)[i] !in Punctuation
    {
      assert x[i] == stripped[i];
      CaseKeepsPunctuation(x[i]);
    }
  }

  /** The finished sentences `0 .. n-1` of record `k`; `None` once a body raised. */
  function FinishedSentences(k: nat, n: nat, body: (nat, nat) -> Option<string>,
                             term: (nat, nat) -> nat): Option<seq<string>>
  {
    if n == 0 then Some([])
    else match FinishedSentences(k, n - 1, body, term)
      case None => None
      case Some(prefix) =>
        match body(k, n - 1)
        case None => None
        case Some(b) => Some(prefix + [FinishSentence(b, term(k, n - 1))])
  }

  /** The sentences of a record exist exactly when every body does, and are then those
      bodies finished with their own terminator draws. */
  lemma {:induction false} FinishedSentencesSpec(k: nat, n: nat, body: (nat, nat) -> Option<string>,
                                                 term: (nat, nat) -> nat)
    ensures FinishedSentences(k, n, body, term).Some? <==> forall j :: 0 <= j < n ==> body(k, j).Some?
    ensures FinishedSentences(k, n, body, term).Some? ==>
      var ss := FinishedSentences(k, n, body, term).value;
      && |ss| == n
      && forall j :: 0 <= j < n ==> ss[j] == FinishSentence(body(k, j).value, term(k, j))
  {
    if n > 0 {
      FinishedSentencesSpec(k, n - 1, body, term);
    }
  }

  /** Record `k`: `''.join(novel_sentence)` over `sentences` finished sentences. */
  function RecordText(k: nat, sentences: int, body: (nat, nat) -> Option<string>,
                      term: (nat, nat) -> nat): Option<string>
  {
    match FinishedSentences(k, Count(sentences), body, term)
    case None => None
    case Some(ss) => Some(Concat(ss))
  }

  /** The records the loop keeps among the first `n`, record `k` coming out as `rec(k)`
      (`None` when one of its bodies raised): they stop at the first failed record, and
      that partial record is dropped. */
  function Kept(rec: nat -> Option<string>, n: nat): (r: seq<string>)
    ensures |r| <= n
  {
    if n == 0 then []
    else
      var prev := Kept(rec, n - 1);
      if |prev| < n - 1 then prev
      else match rec(n - 1)
        case None => prev
        case Some(t) => prev + [t]
  }

  /** The kept records are exactly the first records, in order, up to the first one that
      failed. */
  lemma {:induction false} KeptSpec(rec: nat -> Option<string>, n: nat)
    ensures var r := Kept(rec, n);
      && (forall k :: 0 <= k < |r| ==> rec(k) == Some(r[k]))
      && (|r| < n ==> rec(|r|).None?)
  {
    if n > 0 {
      KeptSpec(rec, n - 1);
      var prev := Kept(rec, n - 1);
      if |prev| == n - 1 && rec(n - 1).Some? {
        var r := Kept(rec, n);
        assert r == prev + [rec(n - 1).value];
        forall k | 0 <= k < |r|
          ensures rec(k) == Some(r[k])
        {
          if k < |prev| {
            assert r[k] == prev[k];
          }
        }
      }
    }
  }

  /** Once a record has failed, later records change nothing. */
  lemma {:induction false} KeptStops(rec: nat -> Option<string>, m: nat, n: nat)
    requires m <= n
    requires |Kept(rec, m)| < m
    ensures Kept(rec, n) == Kept(rec, m)
  {
    if m < n {
      KeptStops(rec, m, n - 1);
    }
  }

  /** Outcomes that agree on the first `n` records keep the same records. */
  lemma {:induction false} KeptAgree(rec1: nat -> Option<string>, rec2: nat -> Option<string>, n: nat)
    requires forall k :: 0 <= k < n ==> rec1(k) == rec2(k)
    ensures Kept(rec1, n) == Kept(rec2, n)
  {
    if n > 0 {
      KeptAgree(rec1, rec2, n - 1);
    }
  }

  /** The outcome of every record of `sentences` sentences over `body` and `term`. */
  function RecordOutcome(sentences: int, body: (nat, nat) -> Option<string>,
                         term: (nat, nat) -> nat): nat -> Option<string>
  {
    (k: nat) => RecordText(k, sentences, body, term)
  }

  /** The records the record loop keeps among the first `n`. */
  function RecordsText(sentences: int, n: nat, body: (nat, nat) -> Option<string>,
                       term: (nat, nat) -> nat): seq<string>
  {
    Kept(RecordOutcome(sentences, body, term), n)
  }

  /** The kept records are the first records, in order, each the concatenation of its
      finished sentences, up to the first one one of whose bodies raised. */
  lemma RecordsTextSpec(sentences: int, n: nat, body: (nat, nat) -> Option<string>,
                        term: (nat, nat) -> nat)
    ensures var r := RecordsText(sentences, n, body, term);
      && |r| <= n
      && (forall k :: 0 <= k < |r| ==> RecordText(k, sentences, body, term) == Some(r[k]))
      && (|r| < n ==> RecordText(|r|, sentences, body, term).None?)
  {
    KeptSpec(RecordOutcome(sentences, body, term), n);
  }

  /** Once a sentence body has raised, the record has no sentences. */
  lemma {:induction false} FinishedSentencesStop(k: nat, m: nat, n: nat, body: (nat, nat) -> Option<string>,
                                                 term: (nat, nat) -> nat)
    requires m <= n
    requires FinishedSentences(k, m, body, term).None?
    ensures FinishedSentences(k, n, body, term).None?
  {
    if m < n {
      FinishedSentencesStop(k, m, n - 1, body, term);
    }
  }

  /** The sentence loop of one record: `sentences` bodies finished and joined, or `None`
      as soon as one body raises. */
  method FinishRecord(k: nat, sentences: int, body: (nat, nat) -> Option<string>,
                      term: (nat, nat) -> nat) returns (record: Option<string>)
    ensures record == RecordText(k, sentences, body, term)
  {
    var novelSentence := [];
    var j := 0;
    while j < Count(sentences)
      invariant j <= Count(sentences)
      invariant FinishedSentences(k, j, body, term) == Some(novelSentence)
    {
      var b := body(k, j);
      if b.None? {
        FinishedSentencesStop(k, j + 1, Count(sentences), body, term);
        return None;
      }
      novelSentence := novelSentence + [FinishSentence(b.value, term(k, j))];
      j := j + 1;
    }
    return Some(Concat(novelSentence));
  }

  /** The shared record loop: `records` times, `sentences` finished sentences concatenated
      into one record; a body that raises ends the loop through the generator's `except`,
      keeping the records completed before it. */
  method BuildRecords(sentences: int, records: int, body: (nat, nat) -> Option<string>,
                      term: (nat, nat) -> nat) returns (words: seq<string>)
    ensures words == RecordsText(sentences, Count(records), body, term)
  {
    words := [];
    var k := 0;
    while k < Count(records)
      invariant k <= Count(records)
      invariant words == RecordsText(sentences, k, body, term) && |words| == k
    {
      var record := FinishRecord(k, sentences, body, term);
      if record.None? {
        RecordFails(sentences, records, body, term, k);
        return;
      }
      words := words + [record.value];
      k := k + 1;
    }
  }

  /** A record that fails at position `k` leaves the records before `k` as the result. */
  lemma RecordFails(sentences: int, records: int, body: (nat, nat) -> Option<string>,
                    term: (nat, nat) -> nat, k: nat)
    requires k < Count(records)
    requires |RecordsText(sentences, k, body, term)| == k
    requires RecordText(k, sentences, body, term).None?
    ensures RecordsText(sentences, Count(records), body, term) == RecordsText(sentences, k, body, term)
  {
    assert RecordsText(sentences, k + 1, body, term) == RecordsText(sentences, k, body, term);
    KeptStops(RecordOutcome(sentences, body, term), k + 1, Count(records));
  }

  /** Records built from bodies that never raise: one per requested record, each the
      concatenation of its finished sentences. */
  lemma RecordsTextTotal(sentences: int, n: nat, body: (nat, nat) -> Option<string>,
                         term: (nat, nat) -> nat)
    requires forall k, j :: 0 <= k < n && 0 <= j < Count(sentences) ==> body(k, j).Some?
    ensures var r := RecordsText(sentences, n, body, term);
      && |r| == n
      && forall k :: 0 <= k < n ==>
           r[k] == Concat(seq(Count(sentences), j requires 0 <= j < Count(sentences) =>
                                                  FinishSentence(body(k, j).value, term(k, j))))
  {
    RecordsTextSpec(sentences, n, body, term);
    var r := RecordsText(sentences, n, body, term);
    if |r| < n {
      FinishedSentencesSpec(|r|, Count(sentences), body, term);
      assert false;
    }
    forall k | 0 <= k < n
      ensures r[k] == Concat(seq(Count(sentences), j requires 0 <= j < Count(sentences) =>
                                                     FinishSentence(body(k, j).value, term(k, j))))
    {
      FinishedSentencesSpec(k, Count(sentences), body, term);
      var ss := FinishedSentences(k, Count(sentences), body, term).value;
      assert ss == seq(Count(sentences), j requires 0 <= j < Count(sentences) =>
                                           FinishSentence(body(k, j).value, term(k, j)));
    }
  }

  /** The words of a sampled sentence: `word[0] for word in hmm.random_sample(rng, n)`. */
  function SampledWords(sample: seq<TaggedWord>): (r: seq<string>)
    ensures |r| == |sample|
    ensures forall i :: 0 <= i < |r| ==> r[i] == sample[i].0
  {
    seq(|sample|, i requires 0 <= i < |sample| => sample[i].0)
  }

  /** The number of pairs `random_sample(rng, n)` returns: NLTK's sampler draws the first
      (word, tag) pair before its loop over `range(1, n)`, so a length below one still gives
      one pair. */
  function SampleLength(n: int): (r: nat)
    ensures r >= 1
    ensures n >= 1 ==> r == n
    ensures n <= 0 ==> r == 1
  {
    if n <= 1 then 1 else n
  }

  /** `random_sample(rng, n)` for sentence `j` of record `k`, the `i`-th pair being
      `sample(k, j, i)`, or `None` when a draw raised (NLTK raises on a distribution that
      does not sum to one). The generator is seeded from the corpus length, so for one
      corpus the draws are one fixed function. */
  function HmmSample(sample: (nat, nat, nat) -> Option<TaggedWord>, wordsPerSentence: int, k: nat, j: nat)
    : Option<seq<TaggedWord>>
  {
    var n := SampleLength(wordsPerSentence);
    if forall i :: 0 <= i < n ==> sample(k, j, i).Some? then
      Some(seq(n, i requires 0 <= i < n && sample(k, j, i).Some? => sample(k, j, i).value))
    else None
  }

  /** A sample exists exactly when none of its draws raised, and then holds those draws in
      order: one pair for a length below one, `n` pairs otherwise. */
  lemma HmmSampleSpec(sample: (nat, nat, nat) -> Option<TaggedWord>, wordsPerSentence: int, k: nat, j: nat)
    ensures var r := HmmSample(sample, wordsPerSentence, k, j);
      && (r.Some? <==> forall i :: 0 <= i < SampleLength(wordsPerSentence) ==> sample(k, j, i).Some?)
      && (r.Some? ==>
            && |r.value| == SampleLength(wordsPerSentence)
            && forall i :: 0 <= i < |r.value| ==> sample(k, j, i) == Some(r.value[i]))
  {
  }

  /** The words of sentence `j` of record `k`, `word[0] for word in hmm.random_sample(rng,
      n)`; none when the sample raised. */
  function HmmWords(sample: (nat, nat, nat) -> Option<TaggedWord>, wordsPerSentence: int, k: nat, j: nat)
    : seq<string>
  {
    match HmmSample(sample, wordsPerSentence, k, j)
    case None => []
    case Some(pairs) => SampledWords(pairs)
  }

  /** The HMM sentence body: the sampled words joined by single spaces; a sample that
      raised raises here too. */
  function HmmBody(sample: (nat, nat, nat) -> Option<TaggedWord>, wordsPerSentence: int): (nat, nat) -> Option<string>
  {
    (k: nat, j: nat) =>
      if HmmSample(sample, wordsPerSentence, k, j).None? then None
      else Some(JoinWith(" ", HmmWords(sample, wordsPerSentence, k, j)))
  }

  /** A length below one still samples one pair, so the sentence is that one word. */
  lemma HmmShortSentence(sample: (nat, nat, nat) -> Option<TaggedWord>, wordsPerSentence: int, k: nat, j: nat)
    requires wordsPerSentence <= 1 && sample(k, j, 0).Some?
    ensures HmmBody(sample, wordsPerSentence)(k, j) == Some(sample(k, j, 0).value.0)
  {
    assert SampleLength(wordsPerSentence) == 1;
    assert forall i :: 0 <= i < 1 ==> sample(k, j, i).Some?;
    HmmSampleSpec(sample, wordsPerSentence, k, j);
    var pairs := HmmSample(sample, wordsPerSentence, k, j).value;
    assert pairs == [sample(k, j, 0).value];
    assert HmmWords(sample, wordsPerSentence, k, j) == [sample(k, j, 0).value.0];
  }

  /** The records of the HMM generator; untrained, the `except` leaves no record. */
  function HmmText(trained: bool, sample: (nat, nat, nat) -> Option<TaggedWord>, term: (nat, nat) -> nat,
                   wordsPerSentence: int, sentencesPerRecord: int, records: int): seq<string>
  {
    if !trained then []
    else RecordsText(sentencesPerRecord, Count(records), HmmBody(sample, wordsPerSentence), term)
  }

  /** A trained model keeps the first records, in order, up to the first one in which a
      sample raised. Record `k` is the concatenation of its finished sentences; sentence `j`
      is the words of its sample joined by spaces, and the record after the last kept one
      has a sample that raised. */
  lemma HmmTextShape(sample: (nat, nat, nat) -> Option<TaggedWord>, term: (nat, nat) -> nat,
                     wordsPerSentence: int, sentencesPerRecord: int, records: int)
    ensures |HmmText(true, sample, term, wordsPerSentence, sentencesPerRecord, records)| <= Count(records)
    ensures forall k, j :: (0 <= k < |HmmText(true, sample, term, wordsPerSentence, sentencesPerRecord, records)|
                            && 0 <= j < Count(sentencesPerRecord)) ==> HmmSample(sample, wordsPerSentence, k, j).Some?
    ensures forall k :: 0 <= k < |HmmText(true, sample, term, wordsPerSentence, sentencesPerRecord, records)| ==>
      HmmText(true, sample, term, wordsPerSentence, sentencesPerRecord, records)[k]
         == Concat(seq(Count(sentencesPerRecord), j requires 0 <= j < Count(sentencesPerRecord) =>
                         FinishSentence(JoinWith(" ", HmmWords(sample, wordsPerSentence, k, j)), term(k, j))))
    ensures var words := HmmText(true, sample, term, wordsPerSentence, sentencesPerRecord, records);
      |words| < Count(records) ==>
      exists j :: 0 <= j < Count(sentencesPerRecord) && HmmSample(sample, wordsPerSentence, |words|, j).None?
  {
    var body := HmmBody(sample, wordsPerSentence);
    var n, s := Count(records), Count(sentencesPerRecord);
    RecordsTextSpec(sentencesPerRecord, n, body, term);
    var words := HmmText(true, sample, term, wordsPerSentence, sentencesPerRecord, records);
    assert words == RecordsText(sentencesPerRecord, n, body, term);
    forall k, j | 0 <= k < |words| && 0 <= j < Count(sentencesPerRecord)
      ensures HmmSample(sample, wordsPerSentence, k, j).Some?
    {
      HmmKeptRecord(sample, term, wordsPerSentence, sentencesPerRecord, k, words[k]);
    }
    forall k | 0 <= k < |words|
      ensures words[k]
                 == Concat(seq(Count(sentencesPerRecord), j requires 0 <= j < Count(sentencesPerRecord) =>
                                 FinishSentence(JoinWith(" ", HmmWords(sample, wordsPerSentence, k, j)), term(k, j))))
    {
      HmmKeptRecord(sample, term, wordsPerSentence, sentencesPerRecord, k, words[k]);
    }
    if |words| < n {
      FinishedSentencesSpec(|words|, s, body, term);
      var failing :| 0 <= failing < s && body(|words|, failing).None?;
      assert HmmSample(sample, wordsPerSentence, |words|, failing).None?;
    }
  }

  /** When no draw raises, a trained model gives one record per requested record. */
  lemma HmmTextComplete(sample: (nat, nat, nat) -> Option<TaggedWord>, term: (nat, nat) -> nat,
                        wordsPerSentence: int, sentencesPerRecord: int, records: int)
    requires forall k, j, i :: (0 <= k < Count(records) && 0 <= j < Count(sentencesPerRecord)
                                && 0 <= i < SampleLength(wordsPerSentence)) ==> sample(k, j, i).Some?
    ensures |HmmText(true, sample, term, wordsPerSentence, sentencesPerRecord, records)| == Count(records)
  {
    var body := HmmBody(sample, wordsPerSentence);
    forall k, j | 0 <= k < Count(records) && 0 <= j < Count(sentencesPerRecord)
      ensures body(k, j).Some?
    {
      HmmSampleSpec(sample, wordsPerSentence, k, j);
    }
    RecordsTextTotal(sentencesPerRecord, Count(records), body, term);
  }

  /** A kept HMM record is its finished sentences over samples that did not raise. */
  lemma HmmKeptRecord(sample: (nat, nat, nat) -> Option<TaggedWord>, term: (nat, nat) -> nat,
                      wordsPerSentence: int, sentencesPerRecord: int, k: nat, record: string)
    requires RecordText(k, sentencesPerRecord, HmmBody(sample, wordsPerSentence), term) == Some(record)
    ensures forall j :: 0 <= j < Count(sentencesPerRecord) ==> HmmSample(sample, wordsPerSentence, k, j).Some?
    ensures record == Concat(seq(Count(sentencesPerRecord), j requires 0 <= j < Count(sentencesPerRecord) =>
                          FinishSentence(JoinWith(" ", HmmWords(sample, wordsPerSentence, k, j)), term(k, j))))
  {
    var body := HmmBody(sample, wordsPerSentence);
    var s := Count(sentencesPerRecord);
    FinishedSentencesSpec(k, s, body, term);
    forall j | 0 <= j < s
      ensures HmmSample(sample, wordsPerSentence, k, j).Some?
    {
      assert body(k, j).Some?;
    }
    var ss := FinishedSentences(k, s, body, term).value;
    assert ss == seq(Count(sentencesPerRecord), j requires 0 <= j < Count(sentencesPerRecord) =>
                       FinishSentence(JoinWith(" ", HmmWords(sample, wordsPerSentence, k, j)), term(k, j))) by {
      forall j | 0 <= j < s
        ensures ss[j] == FinishSentence(JoinWith(" ", HmmWords(sample, wordsPerSentence, k, j)), term(k, j))
      {
        assert body(k, j).value == JoinWith(" ", HmmWords(sample, wordsPerSentence, k, j));
      }
    }
  }

  /** `generate_hmm_novel_text`: tag the corpus, train (`trained` says whether training
      succeeded), then build the records. */
  method GenerateHmmNovelText(corpusSentences: seq<string>, wordTokenize: string -> seq<string>,
                              posTag: seq<string> -> seq<TaggedWord>, trained: bool,
                              sample: (nat, nat, nat) -> Option<TaggedWord>, term: (nat, nat) -> nat,
                              wordsPerSentence: int, sentencesPerRecord: int, records: int)
    returns (words: seq<string>)
    ensures words == HmmText(trained, sample, term, wordsPerSentence, sentencesPerRecord, records)
  {
    words := [];
    var labelledSequence, tagSet, symbols := TagAndParseCorpus(corpusSentences, wordTokenize, posTag);
    if !trained {
      return;
    }
    words := BuildRecords(sentencesPerRecord, records, HmmBody(sample, wordsPerSentence), term);
  }

  /** The grammar sentence body as the generator is meant to build it: each derivation's
      tokens joined by spaces, and the derivations joined by spaces. */
  function JoinDerivations(derivations: seq<seq<string>>): string
  {
    JoinWith(" ", seq(|derivations|, i requires 0 <= i < |derivations| => JoinWith(" ", derivations[i])))
  }

  /** The grammar sentence body as written: `' '.join` over the derivations themselves, which
      are token lists, so the join raises (`TypeError`) as soon as there is one; with no
      derivation it is the empty string. */
  function JoinDerivationsAsWritten(derivations: seq<seq<string>>): (r: Option<string>)
    ensures r.Some? <==> derivations == []
    ensures r.Some? ==> r.value == JoinDerivations(derivations)
  {
    if derivations == [] then Some("") else None
  }

  /** What the grammar generator was given: a grammar source string, which `CFG.fromstring`
      parses or rejects (`parses`), or a grammar object. NLTK's `FeatureGrammar` and `PCFG`
      are subclasses of `CFG`, so every grammar object takes the first `isinstance` branch. */
  datatype GrammarSource = GrammarString(parses: bool) | GrammarObject

  /** Whether a grammar is obtained at all: a source string that does not parse raises
      before the record loop. */
  predicate Obtained(source: GrammarSource)
  {
    source.GrammarObject? || source.parses
  }

  /** The record bodies as the generator means them: every sentence is built from the
      derivations. `generate(grammar, depth=2, n=words_per_sentence)` cuts its enumeration
      with `islice` only for a non-zero count, and `islice` rejects a negative one
      (`ValueError`), so a negative count raises on every sentence. */
  function CfgBody(derivations: seq<seq<string>>, wordsPerSentence: int): (nat, nat) -> Option<string>
  {
    (k: nat, j: nat) => if wordsPerSentence < 0 then None else Some(JoinDerivations(derivations))
  }

  /** `'. '.join(words)` over the grammar records, as the generator means it.
      `derivations` are the depth-2 derivations `generate` yields: the first
      `words_per_sentence` of them for a positive count, all of them for a zero count. They
      are the same for every sentence because the enumeration is deterministic. */
  function CfgText(source: GrammarSource, derivations: seq<seq<string>>, term: (nat, nat) -> nat,
                   wordsPerSentence: int, sentencesPerRecord: int, records: int): string
  {
    if !Obtained(source) then ""
    else JoinWith(". ", RecordsText(sentencesPerRecord, Count(records), CfgBody(derivations, wordsPerSentence), term))
  }

  /** The record bodies as written. A negative count makes `generate` raise first. From a
      string grammar the body is then the raising join. For a grammar object the code keeps
      `parser.grammar` without calling it, a bound method, so `generate` raises
      (`AttributeError`) on every sentence. */
  function CfgBodyAsWritten(source: GrammarSource, derivations: seq<seq<string>>, wordsPerSentence: int)
    : (nat, nat) -> Option<string>
  {
    if source.GrammarObject? || wordsPerSentence < 0 then (k: nat, j: nat) => None
    else (k: nat, j: nat) => JoinDerivationsAsWritten(derivations)
  }

  /** The grammar generator's output as written. */
  function CfgTextAsWritten(source: GrammarSource, derivations: seq<seq<string>>, term: (nat, nat) -> nat,
                            wordsPerSentence: int, sentencesPerRecord: int, records: int): string
  {
    if !Obtained(source) then ""
    else JoinWith(". ", RecordsText(sentencesPerRecord, Count(records),
                                    CfgBodyAsWritten(source, derivations, wordsPerSentence), term))
  }

  /** A first sentence body that raises leaves no record at all. */
  lemma NoRecordAfterFirstFailure(sentences: int, records: int, body: (nat, nat) -> Option<string>,
                                  term: (nat, nat) -> nat)
    requires Count(sentences) > 0 && body(0, 0).None?
    ensures RecordsText(sentences, Count(records), body, term) == []
  {
    if Count(records) > 0 {
      assert FinishedSentences(0, 1, body, term).None?;
      FinishedSentencesStop(0, 1, Count(sentences), body, term);
      assert RecordsText(sentences, 1, body, term) == [];
      KeptStops(RecordOutcome(sentences, body, term), 1, Count(records));
    }
  }

  /** As written, a string grammar with any derivation yields the empty string whenever a
      record has a sentence: the first join raises and no record is kept. */
  lemma CfgAsWrittenLosesDerivations(derivations: seq<seq<string>>, term: (nat, nat) -> nat,
                                     wordsPerSentence: int, sentencesPerRecord: int, records: int)
    requires derivations != [] && sentencesPerRecord > 0
    ensures CfgTextAsWritten(GrammarString(true), derivations, term, wordsPerSentence, sentencesPerRecord, records) == ""
  {
    NoRecordAfterFirstFailure(sentencesPerRecord, records,
                              CfgBodyAsWritten(GrammarString(true), derivations, wordsPerSentence), term);
  }

  /** As written, a grammar object yields the empty string whenever a record has a
      sentence, whatever its derivations. */
  lemma CfgAsWrittenIgnoresGrammarObject(derivations: seq<seq<string>>, term: (nat, nat) -> nat,
                                         wordsPerSentence: int, sentencesPerRecord: int, records: int)
    requires sentencesPerRecord > 0
    ensures CfgTextAsWritten(GrammarObject, derivations, term, wordsPerSentence, sentencesPerRecord, records) == ""
  {
    NoRecordAfterFirstFailure(sentencesPerRecord, records, CfgBodyAsWritten(GrammarObject, derivations, wordsPerSentence), term);
  }

  /** A negative word count makes `generate` raise on the first sentence, so a record with
      a sentence leaves the empty string, as written and as meant. */
  lemma CfgNegativeCountIsEmpty(source: GrammarSource, derivations: seq<seq<string>>, term: (nat, nat) -> nat,
                                wordsPerSentence: int, sentencesPerRecord: int, records: int)
    requires wordsPerSentence < 0 && sentencesPerRecord > 0
    ensures CfgText(source, derivations, term, wordsPerSentence, sentencesPerRecord, records) == ""
    ensures CfgTextAsWritten(source, derivations, term, wordsPerSentence, sentencesPerRecord, records) == ""
  {
    NoRecordAfterFirstFailure(sentencesPerRecord, records, CfgBody(derivations, wordsPerSentence), term);
    NoRecordAfterFirstFailure(sentencesPerRecord, records, CfgBodyAsWritten(source, derivations, wordsPerSentence), term);
  }

  /** The as-written and the corrected generator agree where the defects cannot show: no
      grammar, no derivation from a string grammar, a negative word count, or no sentence
      per record. */
  lemma CfgAsWrittenAgrees(source: GrammarSource, derivations: seq<seq<string>>, term: (nat, nat) -> nat,
                           wordsPerSentence: int, sentencesPerRecord: int, records: int)
    requires || !Obtained(source) || (source.GrammarString? && derivations == [])
             || wordsPerSentence < 0 || sentencesPerRecord <= 0
    ensures CfgTextAsWritten(source, derivations, term, wordsPerSentence, sentencesPerRecord, records)
            == CfgText(source, derivations, term, wordsPerSentence, sentencesPerRecord, records)
  {
    if Obtained(source) {
      RecordsAgree(sentencesPerRecord, Count(records), CfgBodyAsWritten(source, derivations, wordsPerSentence),
                   CfgBody(derivations, wordsPerSentence), term);
    }
  }

  /** Record loops over bodies that agree on every sentence they reach keep the same
      records. */
  lemma RecordsAgree(sentences: int, n: nat, body1: (nat, nat) -> Option<string>,
                                        body2: (nat, nat) -> Option<string>, term: (nat, nat) -> nat)
    requires forall k, j :: 0 <= k < n && 0 <= j < Count(sentences) ==> body1(k, j) == body2(k, j)
    ensures RecordsText(sentences, n, body1, term) == RecordsText(sentences, n, body2, term)
  {
    forall k | 0 <= k < n
      ensures RecordOutcome(sentences, body1, term)(k) == RecordOutcome(sentences, body2, term)(k)
    {
      SentencesAgree(k, Count(sentences), body1, body2, term);
    }
    KeptAgree(RecordOutcome(sentences, body1, term), RecordOutcome(sentences, body2, term), n);
  }

  lemma {:induction false} SentencesAgree(k: nat, m: nat, body1: (nat, nat) -> Option<string>,
                                          body2: (nat, nat) -> Option<string>, term: (nat, nat) -> nat)
    requires forall j :: 0 <= j < m ==> body1(k, j) == body2(k, j)
    ensures FinishedSentences(k, m, body1, term) == FinishedSentences(k, m, body2, term)
  {
    if m > 0 {
      SentencesAgree(k, m - 1, body1, body2, term);
    }
  }

  /** As meant, a parsed grammar and a word count that `generate` accepts give one record
      per requested record, each the concatenation of its finished sentences over the
      joined derivations, and the records joined by `". "`. */
  lemma CfgTextShape(source: GrammarSource, derivations: seq<seq<string>>, term: (nat, nat) -> nat,
                     wordsPerSentence: int, sentencesPerRecord: int, records: int)
    requires Obtained(source) && wordsPerSentence >= 0
    ensures var rs := RecordsText(sentencesPerRecord, Count(records), CfgBody(derivations, wordsPerSentence), term);
      && |rs| == Count(records)
      && CfgText(source, derivations, term, wordsPerSentence, sentencesPerRecord, records) == JoinWith(". ", rs)
      && (forall k :: 0 <= k < |rs| ==>
            rs[k] == Concat(seq(Count(sentencesPerRecord), j requires 0 <= j < Count(sentencesPerRecord) =>
                                  FinishSentence(JoinDerivations(derivations), term(k, j)))))
  {
    var body := CfgBody(derivations, wordsPerSentence);
    RecordsTextTotal(sentencesPerRecord, Count(records), body, term);
    var rs := RecordsText(sentencesPerRecord, Count(records), body, term);
    forall k | 0 <= k < |rs|
      ensures rs[k] == Concat(seq(Count(sentencesPerRecord), j requires 0 <= j < Count(sentencesPerRecord) =>
                                    FinishSentence(JoinDerivations(derivations), term(k, j))))
    {
      var viaBody := seq(Count(sentencesPerRecord), j requires 0 <= j < Count(sentencesPerRecord) =>
                           FinishSentence(body(k, j).value, term(k, j)));
      var direct := seq(Count(sentencesPerRecord), j requires 0 <= j < Count(sentencesPerRecord) =>
                          FinishSentence(JoinDerivations(derivations), term(k, j)));
      assert rs[k] == Concat(viaBody);
      assert viaBody == direct by {
        forall j | 0 <= j < Count(sentencesPerRecord)
          ensures viaBody[j] == direct[j]
        {
          assert body(k, j).value == JoinDerivations(derivations);
        }
      }
    }
  }

  /** With a word count that `generate` accepts and at least one record of at least one
      sentence, the grammar text is not empty. */
  lemma CfgTextNonEmpty(source: GrammarSource, derivations: seq<seq<string>>, term: (nat, nat) -> nat,
                        wordsPerSentence: int, sentencesPerRecord: int, records: int)
    requires Obtained(source) && wordsPerSentence >= 0 && Count(records) > 0 && Count(sentencesPerRecord) > 0
    ensures CfgText(source, derivations, term, wordsPerSentence, sentencesPerRecord, records) != ""
  {
    CfgTextShape(source, derivations, term, wordsPerSentence, sentencesPerRecord, records);
    var body := CfgBody(derivations, wordsPerSentence);
    var rs := RecordsText(sentencesPerRecord, Count(records), body, term);
    var ss := seq(Count(sentencesPerRecord), j requires 0 <= j < Count(sentencesPerRecord) =>
                    FinishSentence(JoinDerivations(derivations), term(0, j)));
    assert rs[0] == Concat(ss);
    FinishSentenceEnd(JoinDerivations(derivations), term(0, 0));
    ConcatLength(ss);
    TotalLengthPositive(ss);
    JoinWithKeepsFirst(". ", rs);
  }

  /** A string list whose first entry is not empty has a positive total length. */
  lemma {:induction false} TotalLengthPositive(parts: seq<string>)
    requires parts != [] && |parts[0]| > 0
    ensures TotalLength(parts) > 0
  {
    if |parts| > 1 {
      TotalLengthPositive(parts[..|parts| - 1]);
    }
  }

  /** `sep.join(parts)` is at least as long as its first part. */
  lemma {:induction false} JoinWithKeepsFirst(sep: string, parts: seq<string>)
    requires parts != []
    ensures |JoinWith(sep, parts)| >= |parts[0]|
  {
    if |parts| > 1 {
      JoinWithKeepsFirst(sep, parts[..|parts| - 1]);
    }
  }

  /** `generate_context_free_grammar_novel_text` with the grammar object used and the
      derivations joined as meant. */
  method GenerateContextFreeGrammarNovelText(source: GrammarSource, derivations: seq<seq<string>>,
                                             term: (nat, nat) -> nat, wordsPerSentence: int,
                                             sentencesPerRecord: int, records: int)
    returns (text: string)
    ensures text == CfgText(source, derivations, term, wordsPerSentence, sentencesPerRecord, records)
  {
    var words := [];
    if Obtained(source) {
      words := BuildRecords(sentencesPerRecord, records, CfgBody(derivations, wordsPerSentence), term);
    }
    text := JoinWith(". ", words);
  }
}
