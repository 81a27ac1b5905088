# Novel-text generation engine of the topics server, in Dafny

This project models the text-generation core of the topics server (`TextGenerator` in
`topics-server/app/corpus/generator.py`). It also models the part of the search indexer
(`SearchEngineIndexer` in `topics-server/app/utils/indexer.py`) that turns the generated CSV
rows into an Elasticsearch bulk body.

The generator turns a corpus into records with one of four engines, chosen by name:

- `simplifiedmarkovchain` builds a bigram transition table and walks it from a random seed pair.
- `hiddenmarkovmodel` POS-tags the corpus, normalises the tags, trains an HMM and samples
  sentences from it.
- `cfg` enumerates depth-2 derivations of a context-free grammar.
- `direct` samples whole corpus sentences.

The HMM and grammar engines finish every sentence the same way: strip punctuation, add one
terminator from `. `, `! `, `? `, and capitalise.

The record assembler then pairs each output element with an identifier. The identifier is
its position or a `uuid1` string.

Everything foreign is an input:

- The NLTK tokenizers, tagger, HMM trainer and sampler, and grammar parser/enumerator.
- The `random` draws, `uuid1` and `datetime.now`.
- The file system.

A random draw is a function from the draw's index to a number. A foreign call that can fail
is a flag or an `Option`. No claim is made about distributions.

Modules:

- `Wrappers`: `Option`, `Result`.
- `Text`: Python's `range` count, character deletion, `join`, ASCII `capitalize`.
- `MarkovChain`: transition table and walk.
- `Tagging`: tag normalisation and the tagging clean-up loop.
- `Finishing`: sentence finishing, the shared HMM/grammar record loop, both generators.
- `Assembler`: direct sampler, engine dispatch, identifier pairing.
- `Indexer`: bulk body.

Each imperative loop of the source is a Dafny `method` proved equal to a specification
function. The properties are proved about those functions.

In the main Markov theorem (`MarkovWalkShape`), the walk's words are read off a chain of drawn
words `D`:

- `D` starts at the seed pair.
- `D[i+2]` is always a recorded successor of `D[i]`.
- A walk that completes emits exactly `records × sentences × (words + 1)` words, laid out
  from `D`.
- A walk that stops did so on the corpus's last token, which is the only word with no
  successor.

## Model

| member | source | states |
|---|---|---|
| `Text.WithoutSpec` | topics-server/app/corpus/generator.py:164 | deleting punctuation leaves no deleted character, keeps every other character as often as before, and never lengthens the string |
| `Text.WithoutUnchanged` | topics-server/app/corpus/generator.py:164 | a string with none of the deleted characters is unchanged |
| `Text.WithoutAppend` | topics-server/app/corpus/generator.py:164 | deleting from a concatenation is concatenating the deletions |
| `Text.JoinWithLength` | topics-server/app/corpus/generator.py:161-163 | the length of `sep.join(parts)` is the parts' total length plus one separator between each two |
| `Text.JoinWithParts` | topics-server/app/corpus/generator.py:161-163 | `sep.join(parts)` is the first part followed by every later part, each preceded by one separator |
| `Text.ConcatIsEmptyJoin` | topics-server/app/corpus/generator.py:168 | `''.join` is `sep.join` with the empty separator |
| `Text.ConcatLength` | topics-server/app/corpus/generator.py:168 | a record's length is the sum of its sentences' lengths |
| `Text.LowerAllSpec` | topics-server/app/corpus/generator.py:166 | lower-casing keeps the length and maps each character in place |
| `Text.CapitalizeShape` | topics-server/app/corpus/generator.py:166 | `capitalize` keeps the length, upper-cases the first character, lower-cases the rest, and leaves non-letters alone |
| `Text.CapitalizeCaseInsensitive` | topics-server/app/corpus/generator.py:166 | a capitalised string equals the original up to letter case |
| `Text.CapitalizeIdempotent` | topics-server/app/corpus/generator.py:166 | capitalising twice is capitalising once |
| `MarkovChain.AddSuccessor` | topics-server/app/corpus/generator.py:71-74 | adding a bigram appends the successor to an existing key's list, or creates a one-element list, and leaves every other key alone |
| `MarkovChain.BuildTransitionTable` | topics-server/app/corpus/generator.py:68-74 | the loop over the bigrams builds exactly the specified transition table |
| `MarkovChain.TableIsSuccessors` | topics-server/app/corpus/generator.py:68-74 | a word is a key iff it occurs before the last position, and its list holds the words that follow its occurrences, in corpus order |
| `MarkovChain.TableShape` | topics-server/app/corpus/generator.py:68-74 | the keys are exactly the tokens at positions `0 .. n-2`, every list is non-empty, and every successor is a token |
| `MarkovChain.MissingKeyIsLastToken` | topics-server/app/corpus/generator.py:82-83 | a corpus token with no entry in the table is the corpus's last token |
| `MarkovChain.TableExample` | topics-server/app/corpus/generator.py:68-74 | for `a b a c a b` the table is `a ↦ [b, c, b]`, `b ↦ [a]`, `c ↦ [a]` |
| `MarkovChain.Seed` | topics-server/app/corpus/generator.py:75-77 | the seed index leaves room for the seed pair |
| `MarkovChain.WalkWords` | topics-server/app/corpus/generator.py:81-84 | the innermost loop takes exactly the specified word steps: it emits the current word, shifts the pair and draws a successor, and stops the walk when a lookup raises |
| `MarkovChain.WalkStopsAt` | topics-server/app/corpus/generator.py:82-89 | once a lookup raises, the remaining words, sentences and records of all three loops add nothing |
| `MarkovChain.MarkovWalkShape` | topics-server/app/corpus/generator.py:75-84 | the words come from a chain that starts at the seed pair and whose every word two steps on is a recorded successor; a completed walk has `r × s × (w+1)` words laid out from that chain; a stopped walk is shorter and ends on the last token, the only word with no successor; every word is a corpus token |
| `MarkovChain.GenerateSimpleMarkovChainNovelText` | topics-server/app/corpus/generator.py:64-89 | the table loop and the three nested walk loops return exactly the specified walk's words; with fewer than two tokens `randint` raises and the method returns nothing |
| `Tagging.NormalizeTagSpec` | topics-server/app/corpus/generator.py:103 | the match is a non-empty prefix of the tag: `*`, `--`, or the longest leading run without `+`, `*`, `-`; no match iff the tag is empty, starts with `+`, or starts with a `-` not followed by another `-` |
| `Tagging.NormalizeTagIdempotent` | topics-server/app/corpus/generator.py:103 | normalising a normalised tag gives it back |
| `Tagging.NormalizeTagExamples` | topics-server/app/corpus/generator.py:103 | `NN+TL-HL` ↦ `NN`, `*` ↦ `*`, `--` ↦ `--`, `*-HL` ↦ `*`, `-NONE-` and `+X` have no match |
| `Tagging.WordsOfMembers` | topics-server/app/corpus/generator.py:115 | the vocabulary of a sentence holds exactly the words occurring in it |
| `Tagging.WithoutApostrophes` | topics-server/app/corpus/generator.py:109 | the string handed to the word tokenizer has no apostrophe and every other character of the sentence |
| `Tagging.FirstUnmatched` | topics-server/app/corpus/generator.py:116 | the position of the first tag with no match: every earlier tag matches, and the tag there does not |
| `Tagging.NormalizeSentence` | topics-server/app/corpus/generator.py:113-118 | the in-place rewrite of one sentence adds its words up to and including the first unmatched tag, and the normalised tags before that tag; when every tag matches, it returns the sentence with each tag normalised and the words kept |
| `Tagging.TagAndParseCorpus` | topics-server/app/corpus/generator.py:104-123 | the cleaned sentences are a prefix of the tagged sentences, each with its words kept and its tags normalised; with no failure, the vocabulary is every word and the tag set is every normalised tag; after a failed match, the failing sentence is dropped, the vocabulary also holds its words up to the failing one, and the tag set holds its earlier tags |
| `Finishing.Terminator` | topics-server/app/corpus/generator.py:146 | the terminator is one of `. `, `! `, `? ` |
| `Finishing.FinishSentenceShape` | topics-server/app/corpus/generator.py:161-166 | a finished sentence is two characters longer than the stripped body; it ends in a space after `.`, `!` or `?`, holds no other punctuation, and equals stripped body plus terminator up to letter case |
| `Finishing.FinishedSentencesSpec` | topics-server/app/corpus/generator.py:160-167 | a record's sentences exist iff no sentence body raised, and are then the finished bodies in order |
| `Finishing.Kept` | topics-server/app/corpus/generator.py:158-171 | no more records are kept than requested |
| `Finishing.KeptSpec` | topics-server/app/corpus/generator.py:158-171 | for any record outcomes, the kept records are the first outcomes in order, and when fewer are kept than requested, the next outcome is a failure |
| `Finishing.KeptAgree` | topics-server/app/corpus/generator.py:158-171 | outcomes that agree on the requested records keep the same records |
| `Finishing.RecordsTextSpec` | topics-server/app/corpus/generator.py:158-171 | the kept records are the first records in order, each the concatenation of its finished sentences, and generation stopped at a record in which a body raised |
| `Finishing.KeptStops` | topics-server/app/corpus/generator.py:169-172 | after a failed record, later records change nothing |
| `Finishing.RecordFails` | topics-server/app/corpus/generator.py:169-172 | a body raising in record `k` leaves exactly the records before `k`; the partial record is dropped |
| `Finishing.FinishRecord` | topics-server/app/corpus/generator.py:159-168 | the sentence loop of one record returns its finished sentences concatenated, or nothing once a body raises |
| `Finishing.BuildRecords` | topics-server/app/corpus/generator.py:158-168 | the two nested record loops return exactly the specified records |
| `Finishing.RecordsTextTotal` | topics-server/app/corpus/generator.py:158-168 | bodies that never raise give one record per requested record, each the concatenation of its finished sentences |
| `Finishing.HmmShortSentence` | topics-server/app/corpus/generator.py:161-163 | with a length of one or below and a first draw that does not raise, the sentence is that one sampled word |
| `Finishing.HmmKeptRecord` | topics-server/app/corpus/generator.py:159-168 | a kept record comes from samples that did not raise and is the concatenation of its finished sentences, each the sampled words joined by spaces |
| `Finishing.HmmTextShape` | topics-server/app/corpus/generator.py:157-171 | a trained model keeps at most the requested records, in order; each kept record's samples did not raise and the record is the concatenation of its finished sentences, each the sampled words joined by spaces; when fewer records are kept, a sample of the next record raised |
| `Finishing.HmmTextComplete` | topics-server/app/corpus/generator.py:157-168 | when no draw raises, a trained model gives one record per requested record |
| `Finishing.GenerateHmmNovelText` | topics-server/app/corpus/generator.py:145-172 | tagging, then no record when training failed, and otherwise exactly the specified records |
| `Finishing.JoinDerivationsAsWritten` | topics-server/app/corpus/generator.py:223-225 | joining the derivation lists succeeds iff there is no derivation |
| `Finishing.NoRecordAfterFirstFailure` | topics-server/app/corpus/generator.py:219-235 | when the first sentence body raises, no record is kept |
| `Finishing.CfgAsWrittenLosesDerivations` | topics-server/app/corpus/generator.py:219-235 | as written, a parsed grammar with any derivation yields the empty string whenever records have a sentence |
| `Finishing.CfgAsWrittenIgnoresGrammarObject` | topics-server/app/corpus/generator.py:202-206 | as written, a grammar object yields the empty string whenever records have a sentence |
| `Finishing.CfgAsWrittenAgrees` | topics-server/app/corpus/generator.py:201-235 | without a grammar, without derivations from a grammar string, with a negative word count, or without sentences, the code as written and the corrected generator agree |
| `Finishing.CfgNegativeCountIsEmpty` | topics-server/app/corpus/generator.py:219-235 | a negative word count makes `generate` raise on the first sentence, so once records have a sentence the text is empty, as written and as meant |
| `Finishing.RecordsAgree` | topics-server/app/corpus/generator.py:220-231 | record loops over bodies that agree on every sentence they reach keep the same records |
| `Finishing.CfgTextShape` | topics-server/app/corpus/generator.py:219-235 | once a grammar is obtained and the word count is not negative, one record per requested record, each the concatenation of its finished sentences over the joined derivations; the records are joined by `. ` |
| `Finishing.CfgTextNonEmpty` | topics-server/app/corpus/generator.py:219-235 | once a grammar is obtained and the word count is not negative, with at least one record of at least one sentence the text is not empty |
| `Finishing.GenerateContextFreeGrammarNovelText` | topics-server/app/corpus/generator.py:195-235 | the corrected grammar generator returns exactly the specified text, and the empty string when no grammar is obtained |
| `Assembler.DirectText` | topics-server/app/corpus/generator.py:254-258 | sampling fails iff there is no sentence and at least one draw is due; otherwise it returns `ns × nr` elements, each a corpus sentence |
| `Assembler.DirectTextExample` | topics-server/app/corpus/generator.py:254-258 | two sentences, one sentence per record and two records give two elements, each one of the two sentences |
| `Assembler.CharactersConcat` | topics-server/app/corpus/generator.py:339-344 | the characters joined give the string back |
| `Assembler.GenerateArrayOfRecords` | topics-server/app/corpus/generator.py:315-345 | the method dispatching to the generator methods returns exactly the specified records |
| `Assembler.RecordsKeepOutput` | topics-server/app/corpus/generator.py:315-345 | the records carry the selected generator's output unchanged and in order; only the direct sampler with no sentences fails |
| `Assembler.IndexIdsArePositions` | topics-server/app/corpus/generator.py:342-344 | without uuids the identifiers are 0, 1, 2, … in order |
| `Assembler.IdsDistinct` | topics-server/app/corpus/generator.py:339-344 | identifiers are pairwise distinct, positions always and uuids when `uuid1` never repeats |
| `Assembler.UnknownEngineIsEmpty` | topics-server/app/corpus/generator.py:315-338 | an engine name other than the four gives no record |
| `Assembler.CfgRecordsAreCharacters` | topics-server/app/corpus/generator.py:333-344 | with the grammar engine every record holds one character of the grammar text, and the records spell it out |
| `Assembler.CfgRecordsAsWritten` | topics-server/app/corpus/generator.py:333-344 | with the grammar generator as written, a parsed grammar string with a derivation or a grammar object gives no record once a record has a sentence |
| `Assembler.MarkovRecordsAreTokens` | topics-server/app/corpus/generator.py:327-332 | with the Markov engine every record is one corpus token |
| `Indexer.SetField` | topics-server/app/utils/indexer.py:86-87 | assigning a field adds or replaces that key and leaves every other key alone |
| `Indexer.SetNested` | topics-server/app/utils/indexer.py:82-85 | assigning a nested field changes only that nested dictionary |
| `Indexer.TemplatesFilled` | topics-server/app/utils/indexer.py:80-87 | filling the templates field by field gives exactly the action and the document, no key left over or added |
| `Indexer.EntryKeys` | topics-server/app/utils/indexer.py:37-50 | an action has only `index`, which has `_id`, `_type` and `_index`; a document has only `text` and `timestamp` |
| `Indexer.CreateDocuments` | topics-server/app/utils/indexer.py:68-97 | a missing file gives an empty body; otherwise there are `2 × rows` entries, in row order, entry `2i` being row `i`'s action (index name, id, type `document`) and entry `2i+1` its document (text, `i`-th timestamp) |

## Findings

| source | as written | input that shows it | evidently intended | confidence | as-written member | corrected member |
|---|---|---|---|---|---|---|
| topics-server/app/corpus/generator.py:223-225 | `' '.join` is applied to the derivations that `generate` yields, and each is a token list, so the join raises `TypeError`; the `except` then leaves no record, and the grammar engine returns `''` | a grammar source string that parses and has at least one depth-2 derivation, with one sentence per record | join each derivation's tokens with spaces, then the derivations with spaces: `' '.join` accepts only strings, and the method's docstring (generator.py:180-194) says it generates novel text, returned as `str`, from the grammar | not executed; high (NLTK's `generate` yields lists) | `Finishing.CfgAsWrittenLosesDerivations` | `Finishing.CfgTextShape` |
| topics-server/app/corpus/generator.py:202-206 | for a grammar object the code keeps `parser.grammar` without calling it; `generate` gets a bound method and raises, so the engine returns `''` | a `CFG` object as corpus, with one sentence per record | call `parser.grammar()` like the other two branches, and enumerate the object's derivations | not executed; high (`grammar` is a method of NLTK's chart parsers) | `Finishing.CfgAsWrittenIgnoresGrammarObject` | `Finishing.CfgTextShape` |

The corrected generator (`Finishing.CfgText`, `Finishing.GenerateContextFreeGrammarNovelText`)
is the one the record assembler uses. `Finishing.CfgAsWrittenAgrees` shows that the two
versions agree wherever neither defect can occur.

## Left out

- NLTK calls are inputs and their internals are not modelled: `sent_tokenize`,
  `word_tokenize`, `pos_tag`, HMM training with Lidstone smoothing, `random_sample`,
  `CFG.fromstring` and `generate`.
  - HMM training success is the flag `trained`.
  - The sampler is a fixed function of (record, sentence, position) that may raise at any
    position (`None`). The generator is seeded from the corpus length, so for one corpus it
    is fixed.
  - `random_sample(rng, n)` draws its first pair before looping over `range(1, n)`, so it
    returns `max(n, 1)` pairs (`Finishing.SampleLength`). This is NLTK's behaviour, and
    NLTK's code is not part of this model.
  - That sampled words come from the training vocabulary is not modelled.
- The grammar derivations are given as the list `generate` would enumerate: the first
  `words_per_sentence` depth-2 derivations for a positive count, all of them for a zero
  count. A negative count makes `islice` raise, which `Finishing.CfgBody` models.
  - Whether a grammar source string parses is the flag `parses`.
  - The `FeatureGrammar` and `PCFG` branches cannot be taken, because both classes derive
    from `CFG`. They are not modelled separately.
- The randomness is not modelled as distributions: `random.randint`, `random.choice`, `uuid1`
  and `datetime.now` are draws given as functions of the draw's index. Uniformity,
  reproducibility and uuid uniqueness are not claimed; `Assembler.IdsDistinct` takes uuid
  uniqueness as a hypothesis.
- `Tagging.TagAndParseCorpus` returns sets for `list(tag_set)` and `list(symbols)`, because the
  order of those lists is unspecified.
- Python 2's `str.translate` with a dictionary works only on unicode strings: the model takes
  every string to be unicode.
- `Text.Capitalize`: ASCII case mapping only; Unicode letters outside ASCII are left unchanged.
- `Assembler.GenerateArrayOfRecords`: the cfg branch runs the corrected grammar generator,
  not the one as written. As written, that generator returns `''` for a grammar object, and
  for a parsed grammar string with a derivation, so the program gives no cfg record there.
  `Assembler.CfgRecordsAsWritten` states that outcome.
- `Assembler.EngineOutput`, `Assembler.RecordsKeepOutput`, `Assembler.CfgRecordsAreCharacters`:
  they use the corrected grammar generator too, for the same reason.
- `Finishing.GenerateHmmNovelText` runs the tagging, but only the flag `trained` connects its
  results to the sampler.
- The Markov generator's comprehension `[item.replace('. .', '.') for item in words]`
  (generator.py:85) discards its result and has no effect, so it is not modelled.
- The indexer models dictionaries as values. That each row gets its own fresh dictionaries is
  therefore automatic, and aliasing is not modelled.
  - A CSV reader error after `k` rows is modelled by passing the `k` rows read.
- Also not modelled:
  - the corpus loaders (`load_nltk_data`, local file and URL loading);
  - `generate_csv`, the `generate` orchestration and settings;
  - `ingest_into_es` and `__get_search_engine_config`;
  - `topics-server/app/utils/es.py`, `topics-server/app/__init__.py` and
    `topics-server/manage.py`.

  They are file, network and configuration I/O.
