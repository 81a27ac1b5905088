/** The direct sentence sampler (`generate_direct_text`) and the record assembler
    (`generate_array_of_records`): one generator is chosen by name and every element of its
    output is paired with an identifier, its position or a fresh `uuid1`. */
module Assembler {
  import opened Wrappers
  import opened Text
  import opened MarkovChain
  import opened Tagging
  import opened Finishing

  /** `[random.choice(sentence_tokens) for _ in range(ns) for _ in range(nr)]`, the `i`-th
      choice being `sentences[pick(i) % |sentences|]`. `random.choice` on no sentences raises
      `IndexError`, which nothing catches, so the whole call fails. */
  function DirectText(sentences: seq<string>, numberOfSentences: int, numberOfRecords: int,
                      pick: nat -> nat): (r: Result<seq<string>, string>)
    ensures r.Failure? <==> sentences == [] && Count(numberOfSentences) * Count(numberOfRecords) > 0
    ensures r.Success? ==>
      && |r.value| == Count(numberOfSentences) * Count(numberOfRecords)
      && forall i :: 0 <= i < |r.value| ==> r.value[i] in sentences
  {
    var n := Count(numberOfSentences) * Count(numberOfRecords);
    if n == 0 then Success([])
    else if sentences == [] then Failure("IndexError: cannot choose from an empty sequence")
    else Success(seq(n, i requires 0 <= i < n => sentences[pick(i) % |sentences|]))
  }

  /** Two sampled sentences, one record of one sentence twice over: two elements, each one
      of the corpus sentences. */
  lemma DirectTextExample(pick: nat -> nat)
    ensures var r := DirectText(["The cat sat.", "The cat ran."], 1, 2, pick);
      && r.Success? && |r.value| == 2
      && forall i :: 0 <= i < 2 ==> r.value[i] == "The cat sat." || r.value[i] == "The cat ran."
  {
  }

  /** The one-character strings of `t`: what iterating over a Python string yields. */
  function Characters(t: string): (r: seq<string>)
    ensures |r| == |t|
    ensures forall i :: 0 <= i < |r| ==> r[i] == [t[i]]
  {
    seq(|t|, i requires 0 <= i < |t| => [t[i]])
  }

  /** Joining the characters gives the string back. */
  lemma {:induction false} CharactersConcat(t: string)
    ensures Concat(Characters(t)) == t
  {
    if t != [] {
      var p := t[..|t| - 1];
      CharactersConcat(p);
      assert Characters(t)[..|t| - 1] == Characters(p);
      assert p + [t[|t| - 1]] == t;
    }
  }

  /** Everything the four generators draw on besides the counts: the corpus as word tokens
      and as sentences, the foreign calls and the random draws. */
  datatype Engines = Engines(
    corpusTokens: seq<string>, seedDraw: nat, markovPick: nat -> nat,
    corpusSentences: seq<string>, wordTokenize: string -> seq<string>,
    posTag: seq<string> -> seq<TaggedWord>, trained: bool,
    sample: (nat, nat, nat) -> Option<TaggedWord>, hmmTerm: (nat, nat) -> nat,
    grammar: GrammarSource, derivations: seq<seq<string>>, cfgTerm: (nat, nat) -> nat,
    directPick: nat -> nat)

  /** A record identifier: the position in the output or a `uuid1` string. */
  datatype RecordId = Index(position: nat) | Uuid(uuid: string)

  datatype Record = Record(id: RecordId, text: string)

  /** The output of the generator the engine name selects; an unknown name selects none
      and leaves the empty list. The grammar generator returns one string, so its
      elements are that string's characters. */
  function EngineOutput(engineType: string, e: Engines, wordsPerSentence: int,
                        sentencesPerRecord: int, records: int): Result<seq<string>, string>
  {
    if engineType == "direct" then
      DirectText(e.corpusSentences, sentencesPerRecord, records, e.directPick)
    else if engineType == "hiddenmarkovmodel" then
      Success(HmmText(e.trained, e.sample, e.hmmTerm, wordsPerSentence, sentencesPerRecord, records))
    else if engineType == "simplifiedmarkovchain" then
      Success(MarkovText(e.corpusTokens, wordsPerSentence, sentencesPerRecord, records, e.seedDraw, e.markovPick))
    else if engineType == "cfg" then
      Success(Characters(CfgText(e.grammar, e.derivations, e.cfgTerm, wordsPerSentence, sentencesPerRecord, records)))
    else
      Success([])
  }

  /** `[(str(uuid.uuid1()), t) for t in data]` or `[(i, t) for i, t in enumerate(data)]`,
      the `i`-th `uuid1` call returning `uuid(i)`. */
  function PairRecords(data: seq<string>, generateUuids: bool, uuid: nat -> string): (r: seq<Record>)
    ensures |r| == |data|
    ensures forall i :: 0 <= i < |r| ==> r[i].text == data[i]
    ensures forall i :: 0 <= i < |r| ==> r[i].id == if generateUuids then Uuid(uuid(i)) else Index(i)
  {
    seq(|data|, i requires 0 <= i < |data| =>
          Record(if generateUuids then Uuid(uuid(i)) else Index(i), data[i]))
  }

  /** The texts of the records, in order. */
  function Texts(records: seq<Record>): (r: seq<string>)
    ensures |r| == |records|
    ensures forall i :: 0 <= i < |r| ==> r[i] == records[i].text
  {
    seq(|records|, i requires 0 <= i < |records| => records[i].text)
  }

  /** `generate_array_of_records`, as a value. */
  function ArrayOfRecords(engineType: string, generateUuids: bool, e: Engines, uuid: nat -> string,
                          wordsPerSentence: int, sentencesPerRecord: int, records: int)
    : Result<seq<Record>, string>
  {
    match EngineOutput(engineType, e, wordsPerSentence, sentencesPerRecord, records)
    case Failure(error) => Failure(error)
    case Success(data) => Success(PairRecords(data, generateUuids, uuid))
  }

  /** `generate_array_of_records`: run the selected generator, then pair its output. */
  method GenerateArrayOfRecords(engineType: string, generateUuids: bool, e: Engines, uuid: nat -> string,
                                wordsPerSentence: int, sentencesPerRecord: int, records: int)
    returns (result: Result<seq<Record>, string>)
    ensures result == ArrayOfRecords(engineType, generateUuids, e, uuid, wordsPerSentence, sentencesPerRecord, records)
  {
    var dataObj: seq<string> := [];
    if engineType == "direct" {
      var direct := DirectText(e.corpusSentences, sentencesPerRecord, records, e.directPick);
      if direct.Failure? {
        return Failure(direct.error);
      }
      dataObj := direct.value;
    } else if engineType == "hiddenmarkovmodel" {
      dataObj := GenerateHmmNovelText(e.corpusSentences, e.wordTokenize, e.posTag, e.trained, e.sample,
                                      e.hmmTerm, wordsPerSentence, sentencesPerRecord, records);
    } else if engineType == "simplifiedmarkovchain" {
      dataObj := GenerateSimpleMarkovChainNovelText(e.corpusTokens, wordsPerSentence, sentencesPerRecord,
                                                    records, e.seedDraw, e.markovPick);
    } else if engineType == "cfg" {
      var text := GenerateContextFreeGrammarNovelText(e.grammar, e.derivations, e.cfgTerm, wordsPerSentence,
                                                      sentencesPerRecord, records);
      dataObj := Characters(text);
    }
    result := Success(PairRecords(dataObj, generateUuids, uuid));
  }

  /** The records carry the generator's output unchanged and in order; only a direct
      sampler with no sentences to choose from fails. */
  lemma RecordsKeepOutput(engineType: string, generateUuids: bool, e: Engines, uuid: nat -> string,
                          wordsPerSentence: int, sentencesPerRecord: int, records: int)
    ensures var out := EngineOutput(engineType, e, wordsPerSentence, sentencesPerRecord, records);
      var r := ArrayOfRecords(engineType, generateUuids, e, uuid, wordsPerSentence, sentencesPerRecord, records);
      && (r.Failure? <==> engineType == "direct" && e.corpusSentences == []
                          && Count(sentencesPerRecord) * Count(records) > 0)
      && (r.Success? ==> out.Success? && Texts(r.value) == out.value)
  {
    var r := ArrayOfRecords(engineType, generateUuids, e, uuid, wordsPerSentence, sentencesPerRecord, records);
    if r.Success? {
      var out := EngineOutput(engineType, e, wordsPerSentence, sentencesPerRecord, records);
      assert Texts(r.value) == out.value;
    }
  }

  /** Without uuids the identifiers are the positions 0, 1, 2, ... in order. */
  lemma IndexIdsArePositions(engineType: string, e: Engines, uuid: nat -> string,
                             wordsPerSentence: int, sentencesPerRecord: int, records: int)
    ensures var r := ArrayOfRecords(engineType, false, e, uuid, wordsPerSentence, sentencesPerRecord, records);
      r.Success? ==> forall i :: 0 <= i < |r.value| ==> r.value[i].id == Index(i)
  {
  }

  /** The identifiers are pairwise distinct: positions always, uuids when the `uuid1` calls
      never repeat. */
  lemma IdsDistinct(engineType: string, generateUuids: bool, e: Engines, uuid: nat -> string,
                    wordsPerSentence: int, sentencesPerRecord: int, records: int)
    requires generateUuids ==> forall a, b :: 0 <= a < b ==> uuid(a) != uuid(b)
    ensures var r := ArrayOfRecords(engineType, generateUuids, e, uuid, wordsPerSentence, sentencesPerRecord, records);
      r.Success? ==> forall a, b :: 0 <= a < b < |r.value| ==> r.value[a].id != r.value[b].id
  {
  }

  /** An engine name outside the four gives no record. */
  lemma UnknownEngineIsEmpty(engineType: string, generateUuids: bool, e: Engines, uuid: nat -> string,
                             wordsPerSentence: int, sentencesPerRecord: int, records: int)
    requires engineType !in {"direct", "hiddenmarkovmodel", "simplifiedmarkovchain", "cfg"}
    ensures ArrayOfRecords(engineType, generateUuids, e, uuid, wordsPerSentence, sentencesPerRecord, records)
            == Success([])
  {
  }

  /** With the grammar engine every record holds one character of the grammar text, and
      the records spell that text out. */
  lemma CfgRecordsAreCharacters(generateUuids: bool, e: Engines, uuid: nat -> string,
                                wordsPerSentence: int, sentencesPerRecord: int, records: int)
    ensures var r := ArrayOfRecords("cfg", generateUuids, e, uuid, wordsPerSentence, sentencesPerRecord, records);
      && r.Success?
      && (forall i :: 0 <= i < |r.value| ==> |r.value[i].text| == 1)
      && Concat(Texts(r.value)) == CfgText(e.grammar, e.derivations, e.cfgTerm, wordsPerSentence, sentencesPerRecord, records)
  {
    var t := CfgText(e.grammar, e.derivations, e.cfgTerm, wordsPerSentence, sentencesPerRecord, records);
    var r := ArrayOfRecords("cfg", generateUuids, e, uuid, wordsPerSentence, sentencesPerRecord, records);
    assert Texts(r.value) == Characters(t);
    CharactersConcat(t);
  }

  /** The grammar generator as written, run by the assembler: a parsed grammar string with
      a derivation, or a grammar object, gives no record once a record has a sentence. */
  lemma CfgRecordsAsWritten(generateUuids: bool, e: Engines, uuid: nat -> string,
                            wordsPerSentence: int, sentencesPerRecord: int, records: int)
    requires (e.grammar == GrammarString(true) && e.derivations != []) || e.grammar == GrammarObject
    requires sentencesPerRecord > 0
    ensures PairRecords(Characters(CfgTextAsWritten(e.grammar, e.derivations, e.cfgTerm, wordsPerSentence, sentencesPerRecord, records)),
                        generateUuids, uuid) == []
  {
    if e.grammar == GrammarObject {
      CfgAsWrittenIgnoresGrammarObject(e.derivations, e.cfgTerm, wordsPerSentence, sentencesPerRecord, records);
    } else {
      CfgAsWrittenLosesDerivations(e.derivations, e.cfgTerm, wordsPerSentence, sentencesPerRecord, records);
    }
  }

  /** With the Markov engine every record is one word of the corpus. */
  lemma MarkovRecordsAreTokens(generateUuids: bool, e: Engines, uuid: nat -> string,
                               wordsPerSentence: int, sentencesPerRecord: int, records: int)
    ensures var r := ArrayOfRecords("simplifiedmarkovchain", generateUuids, e, uuid, wordsPerSentence,
                                    sentencesPerRecord, records);
      && r.Success?
      && forall i :: 0 <= i < |r.value| ==> r.value[i].text in e.corpusTokens
  {
    if |e.corpusTokens| >= 2 {
      MarkovWalkShape(e.corpusTokens, wordsPerSentence, sentencesPerRecord, records, e.seedDraw, e.markovPick);
    }
  }
}
