/** The simplified Markov-chain generator (`generate_simple_markov_chain_novel_text`):
    a bigram transition table built from the token sequence, and a walk over it
    driven by three nested loops that share one (word1, word2) state.

    The tokens are the output of NLTK's `word_tokenize` and are given. The seed of
    `random.randint(0, n - 2)` is the raw draw `seedDraw` reduced into that range, and the
    k-th `random.choice(list)` of the walk returns `list[pick(k) % |list|]`. */
module MarkovChain {
  import opened Text

  /** `cache`: each token mapped to the tokens seen right after it, in corpus order. */
  type Table = map<string, seq<string>>

  /** One iteration of the table loop: append `w2` to `w1`'s list, creating the list. */
  function AddSuccessor(cache: Table, w1: string, w2: string): (r: Table)
    ensures r.Keys == cache.Keys + {w1}
    ensures r[w1] == (if w1 in cache then cache[w1] else []) + [w2]
    ensures forall k :: k in cache && k != w1 ==> r[k] == cache[k]
  {
    if w1 in cache then cache[w1 := cache[w1] + [w2]] else cache[w1 := [w2]]
  }

  /** The table after every bigram of `tokens` has been added, in order. */
  function TransitionTable(tokens: seq<string>): Table
  {
    if |tokens| < 2 then map[]
    else AddSuccessor(TransitionTable(tokens[..|tokens| - 1]), tokens[|tokens| - 2], tokens[|tokens| - 1])
  }

  /** Reference definition: the tokens that follow an occurrence of `a`, left to right. */
  function Successors(tokens: seq<string>, a: string): seq<string>
  {
    if |tokens| < 2 then []
    else (if tokens[0] == a then [tokens[1]] else []) + Successors(tokens[1..], a)
  }

  lemma {:induction false} SuccessorsSnoc(tokens: seq<string>, b: string, a: string)
    requires |tokens| >= 1
    ensures Successors(tokens + [b], a)
         == Successors(tokens, a) + (if tokens[|tokens| - 1] == a then [b] else [])
  {
    var t := tokens + [b];
    if |tokens| == 1 {
      assert t[1..] == [b];
    } else {
      assert t[1..] == tokens[1..] + [b];
      SuccessorsSnoc(tokens[1..], b, a);
    }
  }

  /** Building the table: the loop appending bigram by bigram (generator.py:68-74). */
  method BuildTransitionTable(tokens: seq<string>) returns (cache: Table)
    ensures cache == TransitionTable(tokens)
  {
    cache := map[];
    var i := 0;
    while i + 1 < |tokens|
      invariant |tokens| == 0 || i + 1 <= |tokens|
      invariant cache == TransitionTable(tokens[..if |tokens| == 0 then 0 else i + 1])
    {
      var word1, word2 := tokens[i], tokens[i + 1];
      assert tokens[..i + 2][..i + 1] == tokens[..i + 1];
      if word1 in cache {
        cache := cache[word1 := cache[word1] + [word2]];
      } else {
        cache := cache[word1 := [word2]];
      }
      i := i + 1;
    }
    assert |tokens| == 0 || tokens[..i + 1] == tokens;
  }

  /** Each list of the table is exactly the successors of its key, duplicates kept and in
      corpus order, and a token is a key exactly when something follows one of its
      occurrences. */
  lemma {:induction false} TableIsSuccessors(tokens: seq<string>, a: string)
    ensures a in TransitionTable(tokens) <==> Successors(tokens, a) != []
    ensures a in TransitionTable(tokens) ==> TransitionTable(tokens)[a] == Successors(tokens, a)
  {
    if |tokens| >= 2 {
      var prefix := tokens[..|tokens| - 1];
      TableIsSuccessors(prefix, a);
      assert tokens == prefix + [tokens[|tokens| - 1]];
      SuccessorsSnoc(prefix, tokens[|tokens| - 1], a);
    }
  }

  /** The keys are exactly the tokens at positions 0 .. n-2, every list is non-empty, and
      every listed successor is a token of the corpus. */
  lemma {:induction false} TableShape(tokens: seq<string>)
    ensures TransitionTable(tokens).Keys == set i | 0 <= i < |tokens| - 1 :: tokens[i]
    ensures forall a :: a in TransitionTable(tokens) ==> TransitionTable(tokens)[a] != []
    ensures forall a, x :: a in TransitionTable(tokens) && x in TransitionTable(tokens)[a] ==> x in tokens
  {
    if |tokens| >= 2 {
      var prefix := tokens[..|tokens| - 1];
      TableShape(prefix);
      var keys := set i | 0 <= i < |tokens| - 1 :: tokens[i];
      var prefixKeys := set i | 0 <= i < |prefix| - 1 :: prefix[i];
      assert keys == prefixKeys + {tokens[|tokens| - 2]} by {
        forall x | x in keys ensures x in prefixKeys + {tokens[|tokens| - 2]} {
          var i :| 0 <= i < |tokens| - 1 && tokens[i] == x;
          if i < |tokens| - 2 {
            assert prefix[i] == x;
          }
        }
        forall x | x in prefixKeys ensures x in keys {
          var i :| 0 <= i < |prefix| - 1 && prefix[i] == x;
          assert tokens[i] == x;
        }
      }
      var table, prefixTable := TransitionTable(tokens), TransitionTable(prefix);
      forall a, x | a in table && x in table[a] ensures x in tokens {
        if x != tokens[|tokens| - 1] {
          assert a in prefixTable && x in prefixTable[a];
          assert x in prefix;
          var i :| 0 <= i < |prefix| && prefix[i] == x;
          assert tokens[i] == x;
        }
      }
    }
  }

  lemma EarlierTokenIsKey(tokens: seq<string>, j: nat)
    requires j < |tokens|
    ensures j < |tokens| - 1 ==> tokens[j] in TransitionTable(tokens)
  {
    TableShape(tokens);
    if j < |tokens| - 1 {
      assert tokens[j] in set i | 0 <= i < |tokens| - 1 :: tokens[i];
    }
  }

  /** A corpus token that has no successor list is the corpus's last token. */
  lemma MissingKeyIsLastToken(tokens: seq<string>, x: string)
    requires x in tokens && x !in TransitionTable(tokens)
    ensures x == tokens[|tokens| - 1]
  {
    var j :| 0 <= j < |tokens| && tokens[j] == x;
    EarlierTokenIsKey(tokens, j);
  }

  /** The corpus `a b a c a b` gives `a -> [b, c, b]`, `b -> [a]`, `c -> [a]`. */
  lemma TableExample()
    ensures TransitionTable(["a", "b", "a", "c", "a", "b"]) == map["a" := ["b", "c", "b"], "b" := ["a"], "c" := ["a"]]
  {
    var t2, t3, t4, t5, t6 := ["a", "b"], ["a", "b", "a"], ["a", "b", "a", "c"],
                              ["a", "b", "a", "c", "a"], ["a", "b", "a", "c", "a", "b"];
    assert t3[..2] == t2 && t4[..3] == t3 && t5[..4] == t4 && t6[..5] == t5;
    assert ["b"] + ["c"] == ["b", "c"] && ["b", "c"] + ["b"] == ["b", "c", "b"];
    assert TransitionTable(t2) == map["a" := ["b"]];
    assert TransitionTable(t3) == map["a" := ["b"], "b" := ["a"]];
    assert TransitionTable(t4) == map["a" := ["b", "c"], "b" := ["a"]];
    assert TransitionTable(t5) == map["a" := ["b", "c"], "b" := ["a"], "c" := ["a"]];
    assert TransitionTable(t6) == map["a" := ["b", "c", "b"], "b" := ["a"], "c" := ["a"]];
  }

  // ---------------------------------------------------------------------------
  // The walk (generator.py:75-84)
  // ---------------------------------------------------------------------------

  /** The walk's state: the loop variables `word1`, `word2`, the number of draws made so far,
      the output `words` and whether a lookup has raised. `drawn` is the chain of
      successors: the two seed tokens followed by every drawn word; it is not in the source
      and serves the statements about the walk. */
  datatype Walk = Walk(word1: string, word2: string, draws: nat, drawn: seq<string>,
                       words: seq<string>, failed: bool)

  /** One pass of the innermost loop: emit `word1`, then `word1, word2 = word2,
      random.choice(cache[word1])`. The right-hand side is evaluated first, so the draw is
      from the list of the word just emitted. A missing key (KeyError) or an empty list
      (IndexError) raises after the emission and ends the walk. */
  function StepWord(cache: Table, pick: nat -> nat, st: Walk): Walk
  {
    if st.failed then st
    else
      var emitted := st.words + [st.word1];
      if st.word1 in cache && cache[st.word1] != [] then
        var successors := cache[st.word1];
        var next := successors[pick(st.draws) % |successors|];
        Walk(st.word2, next, st.draws + 1, st.drawn + [next], emitted, false)
      else st.(words := emitted, failed := true)
  }

  /** The innermost loop, `n` passes. */
  function Words(cache: Table, pick: nat -> nat, st: Walk, n: nat): Walk
  {
    if n == 0 then st else StepWord(cache, pick, Words(cache, pick, st, n - 1))
  }

  /** One sentence: `w` word steps, then `words.append(word2)`. */
  function Sentence(cache: Table, pick: nat -> nat, st: Walk, w: nat): Walk
  {
    var t := Words(cache, pick, st, w);
    if t.failed then t else t.(words := t.words + [t.word2])
  }

  /** The middle loop, `n` sentences. */
  function Sentences(cache: Table, pick: nat -> nat, st: Walk, w: nat, n: nat): Walk
  {
    if n == 0 then st else Sentence(cache, pick, Sentences(cache, pick, st, w, n - 1), w)
  }

  /** The outer loop, `n` records of `s` sentences. */
  function Records(cache: Table, pick: nat -> nat, st: Walk, w: nat, s: nat, n: nat): Walk
  {
    if n == 0 then st else Sentences(cache, pick, Records(cache, pick, st, w, s, n - 1), w, s)
  }

  /** `seed = random.randint(0, n - 2)`; `word1, word2 = tokens[seed], tokens[seed + 1]`. */
  function Seed(tokens: seq<string>, seedDraw: nat): (seed: nat)
    requires |tokens| >= 2
    ensures seed <= |tokens| - 2
  {
    seedDraw % (|tokens| - 1)
  }

  function Initial(tokens: seq<string>, seedDraw: nat): Walk
    requires |tokens| >= 2
  {
    var seed := Seed(tokens, seedDraw);
    Walk(tokens[seed], tokens[seed + 1], 0, [tokens[seed], tokens[seed + 1]], [], false)
  }

  /** The state after the three loops, or after the lookup that raised. */
  function MarkovWalk(tokens: seq<string>, wordsPerSentence: int, sentencesPerRecord: int,
                      records: int, seedDraw: nat, pick: nat -> nat): Walk
    requires |tokens| >= 2
  {
    Records(TransitionTable(tokens), pick, Initial(tokens, seedDraw),
            Count(wordsPerSentence), Count(sentencesPerRecord), Count(records))
  }

  /** What the generator returns: nothing when `randint` raises on fewer than two tokens,
      and otherwise every word appended before the walk ended. */
  function MarkovText(tokens: seq<string>, wordsPerSentence: int, sentencesPerRecord: int,
                      records: int, seedDraw: nat, pick: nat -> nat): seq<string>
  {
    if |tokens| < 2 then []
    else MarkovWalk(tokens, wordsPerSentence, sentencesPerRecord, records, seedDraw, pick).words
  }

  // ---------------------------------------------------------------------------
  // Properties of the walk
  // ---------------------------------------------------------------------------

  /** `m * w` as `m` additions of `w`: the walk's proofs count in it, which keeps them
      linear. */
  function Times(m: nat, w: nat): nat
  {
    if m == 0 then 0 else Times(m - 1, w) + w
  }

  lemma {:induction false} TimesIsProduct(m: nat, w: nat)
    ensures Times(m, w) == m * w
  {
    if m > 0 {
      TimesIsProduct(m - 1, w);
      assert (m - 1) * w + w == m * w;
    }
  }

  /** Adding one to every term adds one per term. */
  lemma {:induction false} TimesSucc(m: nat, w: nat)
    ensures Times(m, w + 1) == Times(m, w) + m
  {
    if m > 0 {
      TimesSucc(m - 1, w);
    }
  }

  /** The offsets of the chain `D` that the first `m` sentences emit: sentence j emits
      `D[j*w .. (j+1)*w]` and then the pending `word2`, which is `D[(j+1)*w + 1]`. */
  function Layout(D: seq<string>, w: nat, m: nat): seq<string>
    requires Times(m, w) + 2 <= |D|
  {
    if m == 0 then []
    else Layout(D, w, m - 1) + D[Times(m - 1, w) .. Times(m, w)] + [D[Times(m, w) + 1]]
  }

  lemma {:induction false} LayoutLength(D: seq<string>, w: nat, m: nat)
    requires Times(m, w) + 2 <= |D|
    ensures |Layout(D, w, m)| == Times(m, w + 1)
  {
    if m > 0 {
      LayoutLength(D, w, m - 1);
    }
  }

  /** The layout depends only on the part of the chain it reaches. */
  lemma {:induction false} LayoutPrefix(D: seq<string>, E: seq<string>, w: nat, m: nat)
    requires Times(m, w) + 2 <= |D| <= |E| && D == E[..|D|]
    ensures Layout(D, w, m) == Layout(E, w, m)
  {
    if m > 0 {
      LayoutPrefix(D, E, w, m - 1);
      assert D[Times(m - 1, w) .. Times(m, w)] == E[Times(m - 1, w) .. Times(m, w)];
    }
  }

  /** The word two places after position `i` of the chain was drawn from the list of the
      word at `i`. */
  ghost predicate Linked(cache: Table, drawn: seq<string>, i: nat)
    requires i + 2 < |drawn|
  {
    drawn[i] in cache && drawn[i + 2] in cache[drawn[i]]
  }

  /** The loop variables are the chain's last two words. */
  ghost predicate Aligned(st: Walk)
  {
    && |st.drawn| == st.draws + 2
    && st.word1 == st.drawn[st.draws]
    && st.word2 == st.drawn[st.draws + 1]
  }

  /** A state of the walk is coherent: it is aligned, each drawn word is in the list of
      the word emitted at its draw, and a raised lookup is on the last word emitted. */
  ghost predicate Coherent(cache: Table, st: Walk)
  {
    && Aligned(st)
    && (forall i :: 0 <= i < st.draws ==> Linked(cache, st.drawn, i))
    && (st.failed ==>
          st.words != [] && st.words[|st.words| - 1] == st.word1
          && !(st.word1 in cache && cache[st.word1] != []))
  }

  lemma {:induction false} WordsFailedFixed(cache: Table, pick: nat -> nat, st: Walk, a: nat, b: nat)
    requires a <= b && Words(cache, pick, st, a).failed
    ensures Words(cache, pick, st, b) == Words(cache, pick, st, a)
    decreases b
  {
    if b > a {
      WordsFailedFixed(cache, pick, st, a, b - 1);
    }
  }

  lemma {:induction false} SentencesFailedFixed(cache: Table, pick: nat -> nat, st: Walk, w: nat, a: nat, b: nat)
    requires a <= b && Sentences(cache, pick, st, w, a).failed
    ensures Sentences(cache, pick, st, w, b) == Sentences(cache, pick, st, w, a)
    decreases b
  {
    if b > a {
      SentencesFailedFixed(cache, pick, st, w, a, b - 1);
      WordsFailedFixed(cache, pick, Sentences(cache, pick, st, w, b - 1), 0, w);
    }
  }

  lemma {:induction false} RecordsFailedFixed(cache: Table, pick: nat -> nat, st: Walk, w: nat, s: nat, a: nat, b: nat)
    requires a <= b && Records(cache, pick, st, w, s, a).failed
    ensures Records(cache, pick, st, w, s, b) == Records(cache, pick, st, w, s, a)
    decreases b
  {
    if b > a {
      RecordsFailedFixed(cache, pick, st, w, s, a, b - 1);
      SentencesFailedFixed(cache, pick, Records(cache, pick, st, w, s, b - 1), w, 0, s);
    }
  }

  /** One word step keeps the state coherent. */
  lemma StepCoherent(cache: Table, pick: nat -> nat, u: Walk)
    requires Coherent(cache, u)
    ensures Coherent(cache, StepWord(cache, pick, u))
  {
    var t := StepWord(cache, pick, u);
    if !u.failed && !t.failed {
      assert t.drawn == u.drawn + [t.word2];
      forall i | 0 <= i < t.draws
        ensures Linked(cache, t.drawn, i)
      {
        if i < u.draws {
          assert Linked(cache, u.drawn, i);
          assert t.drawn[i] == u.drawn[i] && t.drawn[i + 2] == u.drawn[i + 2];
        }
      }
    }
  }

  lemma {:induction false} WordsCoherent(cache: Table, pick: nat -> nat, st: Walk, n: nat)
    requires Coherent(cache, st)
    ensures Coherent(cache, Words(cache, pick, st, n))
  {
    if n > 0 {
      WordsCoherent(cache, pick, st, n - 1);
      StepCoherent(cache, pick, Words(cache, pick, st, n - 1));
    }
  }

  lemma {:induction false} SentencesCoherent(cache: Table, pick: nat -> nat, st: Walk, w: nat, m: nat)
    requires Coherent(cache, st)
    ensures Coherent(cache, Sentences(cache, pick, st, w, m))
  {
    if m > 0 {
      SentencesCoherent(cache, pick, st, w, m - 1);
      WordsCoherent(cache, pick, Sentences(cache, pick, st, w, m - 1), w);
    }
  }

  /** One word step from an aligned, running state keeps it aligned, extends the chain
      and emits the chain's word at the current draw. */
  lemma StepShape(cache: Table, pick: nat -> nat, u: Walk)
    requires Aligned(u) && !u.failed
    ensures var t := StepWord(cache, pick, u);
      && Aligned(t)
      && |u.drawn| <= |t.drawn| && u.drawn == t.drawn[..|u.drawn|]
      && (!t.failed ==> t.draws == u.draws + 1 && t.words == u.words + [u.drawn[u.draws]])
      && (t.failed ==> |t.words| == |u.words| + 1)
  {
    var t := StepWord(cache, pick, u);
    if !t.failed {
      assert t.drawn == u.drawn + [t.word2];
    }
  }

  /** A lookup that raises in word step `k` of sentence `sentence` of record `record` ends
      the whole walk there. */
  lemma WalkStopsAt(cache: Table, pick: nat -> nat, st0: Walk, w: nat, s: nat, n: nat,
                    record: nat, sentence: nat, k: nat)
    requires record < n && sentence < s && k < w
    requires Words(cache, pick, Sentences(cache, pick, Records(cache, pick, st0, w, s, record), w, sentence), k + 1).failed
    ensures Records(cache, pick, st0, w, s, n)
         == Words(cache, pick, Sentences(cache, pick, Records(cache, pick, st0, w, s, record), w, sentence), k + 1)
  {
    var recordStart := Records(cache, pick, st0, w, s, record);
    var sentenceStart := Sentences(cache, pick, recordStart, w, sentence);
    WordsFailedFixed(cache, pick, sentenceStart, k + 1, w);
    SentencesFailedFixed(cache, pick, recordStart, w, sentence + 1, s);
    RecordsFailedFixed(cache, pick, st0, w, s, record + 1, n);
  }

  /** Prefixes of prefixes are prefixes. */
  lemma PrefixTransitive(a: seq<string>, b: seq<string>, c: seq<string>)
    requires |a| <= |b| <= |c| && a == b[..|a|] && b == c[..|b|]
    ensures a == c[..|a|]
  {
    assert c[..|b|][..|a|] == c[..|a|];
  }

  /** A slice reaching one past the end of a prefix is that prefix's slice plus one word. */
  lemma SliceSnoc(d: seq<string>, e: seq<string>, lo: nat, hi: nat)
    requires lo < hi <= |d| <= |e| && d == e[..|d|]
    ensures e[lo .. hi] == d[lo .. hi - 1] + [d[hi - 1]]
  {
    assert e[lo .. hi - 1] == d[lo .. hi - 1];
  }

  lemma AppendAssoc(a: seq<string>, b: seq<string>, c: seq<string>)
    ensures (a + b) + c == a + (b + c)
  {
  }

  /** `n` word steps from an aligned, running state: they emit the next `n` words of the
      chain, or stop after emitting the word whose lookup raised. */
  lemma {:induction false} WordsShape(cache: Table, pick: nat -> nat, st: Walk, n: nat)
    requires Aligned(st) && !st.failed
    ensures var t := Words(cache, pick, st, n);
      && Aligned(t)
      && |st.drawn| <= |t.drawn| && st.drawn == t.drawn[..|st.drawn|]
      && (!t.failed ==> t.draws == st.draws + n && t.words == st.words + t.drawn[st.draws .. st.draws + n])
      && (t.failed ==> |st.words| < |t.words| <= |st.words| + n)
  {
    if n > 0 {
      WordsShape(cache, pick, st, n - 1);
      var u := Words(cache, pick, st, n - 1);
      var t := StepWord(cache, pick, u);
      if !u.failed {
        StepShape(cache, pick, u);
        PrefixTransitive(st.drawn, u.drawn, t.drawn);
        if !t.failed {
          SliceSnoc(u.drawn, t.drawn, st.draws, st.draws + n);
          AppendAssoc(st.words, u.drawn[st.draws .. st.draws + n - 1], [u.drawn[u.draws]]);
        }
      }
    }
  }

  /** After `j` sentences of `w` words: a running walk has made `j * w` draws and emitted
      the layout of its chain; a stopped one has emitted fewer words than that layout has. */
  ghost predicate LaidOut(st: Walk, w: nat, j: nat)
  {
    && Aligned(st)
    && (!st.failed ==> st.draws == Times(j, w) && st.words == Layout(st.drawn, w, j))
    && (st.failed ==> |st.words| < Times(j, w + 1))
  }

  /** The `w` word steps of a sentence that completes, after `j` sentences laid out, emit
      the chain's words `j * w .. (j + 1) * w` after that layout. */
  lemma WordsAfterLayout(cache: Table, pick: nat -> nat, u: Walk, w: nat, j: nat)
    requires LaidOut(u, w, j) && !u.failed && !Words(cache, pick, u, w).failed
    ensures var v := Words(cache, pick, u, w);
      && Aligned(v) && |u.drawn| <= |v.drawn| && u.drawn == v.drawn[..|u.drawn|]
      && v.draws == Times(j + 1, w)
      && v.words == Layout(v.drawn, w, j) + v.drawn[Times(j, w) .. Times(j + 1, w)]
  {
    WordsShape(cache, pick, u, w);
    assert Times(j + 1, w) == Times(j, w) + w;
    LayoutPrefix(u.drawn, Words(cache, pick, u, w).drawn, w, j);
  }

  /** A sentence of `w` words that completes, after `j` sentences laid out: the chain's
      next `w` words and the pending `word2` follow the layout, which is sentence `j + 1`. */
  lemma SentenceCompletes(cache: Table, pick: nat -> nat, u: Walk, w: nat, j: nat)
    requires LaidOut(u, w, j) && !u.failed && !Words(cache, pick, u, w).failed
    ensures var t := Sentence(cache, pick, u, w);
      && LaidOut(t, w, j + 1)
      && |u.drawn| <= |t.drawn| && u.drawn == t.drawn[..|u.drawn|]
  {
    WordsAfterLayout(cache, pick, u, w, j);
    var v := Words(cache, pick, u, w);
    assert Sentence(cache, pick, u, w) == v.(words := v.words + [v.word2]);
  }

  /** A sentence in which a lookup raises emits at most `w` words after a layout of
      `j * (w + 1)`, fewer than sentence `j + 1` would have. */
  lemma SentenceStops(cache: Table, pick: nat -> nat, u: Walk, w: nat, j: nat)
    requires LaidOut(u, w, j) && !u.failed && Words(cache, pick, u, w).failed
    ensures var t := Sentence(cache, pick, u, w);
      && LaidOut(t, w, j + 1)
      && |u.drawn| <= |t.drawn| && u.drawn == t.drawn[..|u.drawn|]
  {
    LayoutLength(u.drawn, w, j);
    WordsShape(cache, pick, u, w);
    assert Sentence(cache, pick, u, w) == Words(cache, pick, u, w);
    assert Times(j + 1, w + 1) == Times(j, w + 1) + w + 1;
  }

  /** One more sentence after `j` sentences: it lays out sentence `j` of the chain, or stops
      short when a lookup raises; a walk that already stopped stays as it was. */
  lemma SentenceShape(cache: Table, pick: nat -> nat, u: Walk, w: nat, j: nat)
    requires LaidOut(u, w, j)
    ensures var t := Sentence(cache, pick, u, w);
      && LaidOut(t, w, j + 1)
      && |u.drawn| <= |t.drawn| && u.drawn == t.drawn[..|u.drawn|]
  {
    if u.failed {
      WordsFailedFixed(cache, pick, u, 0, w);
      assert Sentence(cache, pick, u, w) == u;
      assert Times(j + 1, w + 1) == Times(j, w + 1) + w + 1;
    } else if Words(cache, pick, u, w).failed {
      SentenceStops(cache, pick, u, w, j);
    } else {
      SentenceCompletes(cache, pick, u, w, j);
    }
  }

  /** `m` sentences from the seed: the output is the layout of the chain, exactly
      `m * (w + 1)` words, unless a lookup raised, in which case it is shorter. */
  lemma {:induction false} SentencesShape(cache: Table, pick: nat -> nat, st: Walk, w: nat, m: nat)
    requires LaidOut(st, w, 0)
    ensures var t := Sentences(cache, pick, st, w, m);
      && LaidOut(t, w, m)
      && |st.drawn| <= |t.drawn| && st.drawn == t.drawn[..|st.drawn|]
  {
    if m > 0 {
      SentencesShape(cache, pick, st, w, m - 1);
      var u := Sentences(cache, pick, st, w, m - 1);
      var t := Sentence(cache, pick, u, w);
      assert t == Sentences(cache, pick, st, w, m);
      SentenceShape(cache, pick, u, w, m - 1);
      PrefixTransitive(st.drawn, u.drawn, t.drawn);
    }
  }

  lemma {:induction false} SentencesAdd(cache: Table, pick: nat -> nat, st: Walk, w: nat, a: nat, b: nat)
    ensures Sentences(cache, pick, Sentences(cache, pick, st, w, a), w, b) == Sentences(cache, pick, st, w, a + b)
  {
    if b > 0 {
      SentencesAdd(cache, pick, st, w, a, b - 1);
    }
  }

  /** The record loop only groups sentences: `n` records are `n * s` sentences in a row,
      with no reset of the state between them. */
  lemma {:induction false} RecordsAreSentences(cache: Table, pick: nat -> nat, st: Walk, w: nat, s: nat, n: nat)
    ensures Records(cache, pick, st, w, s, n) == Sentences(cache, pick, st, w, Times(n, s))
  {
    if n > 0 {
      RecordsAreSentences(cache, pick, st, w, s, n - 1);
      SentencesAdd(cache, pick, st, w, Times(n - 1, s), s);
    }
  }

  /** The walk's starting state is coherent: two seed tokens, no draw, no output. */
  lemma InitialCoherent(tokens: seq<string>, seedDraw: nat)
    requires |tokens| >= 2
    ensures Coherent(TransitionTable(tokens), Initial(tokens, seedDraw))
  {
  }

  /** `m` sentences from the seed pair: the chain keeps the seed pair at its head. */
  lemma SeedSentences(tokens: seq<string>, seedDraw: nat, pick: nat -> nat, w: nat, m: nat)
    requires |tokens| >= 2
    ensures var st := Sentences(TransitionTable(tokens), pick, Initial(tokens, seedDraw), w, m);
      var seed := Seed(tokens, seedDraw);
      && Coherent(TransitionTable(tokens), st)
      && st.drawn[0] == tokens[seed] && st.drawn[1] == tokens[seed + 1]
      && (!st.failed ==> st.draws == Times(m, w) && st.words == Layout(st.drawn, w, m))
      && (st.failed ==> |st.words| < Times(m, w + 1))
  {
    var st0 := Initial(tokens, seedDraw);
    InitialCoherent(tokens, seedDraw);
    SentencesCoherent(TransitionTable(tokens), pick, st0, w, m);
    assert LaidOut(st0, w, 0);
    SentencesShape(TransitionTable(tokens), pick, st0, w, m);
    var st := Sentences(TransitionTable(tokens), pick, st0, w, m);
    assert st.drawn[0] == st.drawn[..2][0] == st0.drawn[0];
    assert st.drawn[1] == st.drawn[..2][1] == st0.drawn[1];
  }

  /** Every word the state holds, pending or appended, is a corpus token. */
  ghost predicate FromCorpus(tokens: seq<string>, st: Walk)
  {
    st.word1 in tokens && st.word2 in tokens && forall x :: x in st.words ==> x in tokens
  }

  /** A word step appends a pending word and draws from a list of the table, whose words
      are all corpus tokens. */
  lemma StepFromCorpus(tokens: seq<string>, pick: nat -> nat, u: Walk)
    requires FromCorpus(tokens, u)
    ensures FromCorpus(tokens, StepWord(TransitionTable(tokens), pick, u))
  {
    TableShape(tokens);
  }

  lemma {:induction false} WordsFromCorpus(tokens: seq<string>, pick: nat -> nat, st: Walk, n: nat)
    requires FromCorpus(tokens, st)
    ensures FromCorpus(tokens, Words(TransitionTable(tokens), pick, st, n))
  {
    if n > 0 {
      WordsFromCorpus(tokens, pick, st, n - 1);
      StepFromCorpus(tokens, pick, Words(TransitionTable(tokens), pick, st, n - 1));
    }
  }

  lemma {:induction false} SentencesFromCorpus(tokens: seq<string>, pick: nat -> nat, st: Walk, w: nat, m: nat)
    requires FromCorpus(tokens, st)
    ensures FromCorpus(tokens, Sentences(TransitionTable(tokens), pick, st, w, m))
  {
    if m > 0 {
      SentencesFromCorpus(tokens, pick, st, w, m - 1);
      WordsFromCorpus(tokens, pick, Sentences(TransitionTable(tokens), pick, st, w, m - 1), w);
    }
  }

  /** The three loops of the walk run `records * sentences` sentences from the seed. */
  lemma MarkovWalkAsSentences(tokens: seq<string>, wordsPerSentence: int, sentencesPerRecord: int,
                              records: int, seedDraw: nat, pick: nat -> nat)
    requires |tokens| >= 2
    ensures MarkovWalk(tokens, wordsPerSentence, sentencesPerRecord, records, seedDraw, pick)
         == Sentences(TransitionTable(tokens), pick, Initial(tokens, seedDraw), Count(wordsPerSentence),
                      Times(Count(records), Count(sentencesPerRecord)))
  {
    var w, s, n := Count(wordsPerSentence), Count(sentencesPerRecord), Count(records);
    RecordsAreSentences(TransitionTable(tokens), pick, Initial(tokens, seedDraw), w, s, n);
  }

  /** A walk that raised stopped on a corpus token with no list: the corpus's last token. */
  lemma FailedOnLastToken(tokens: seq<string>, st: Walk)
    requires Coherent(TransitionTable(tokens), st) && FromCorpus(tokens, st) && st.failed
    ensures st.words != [] && st.words[|st.words| - 1] !in TransitionTable(tokens)
    ensures st.words[|st.words| - 1] == tokens[|tokens| - 1]
  {
    TableShape(tokens);
    MissingKeyIsLastToken(tokens, st.words[|st.words| - 1]);
  }

  /** The walk as a whole. The chain starts with the seed pair `tokens[seed], tokens[seed+1]`
      and is never reset; every drawn word is in the successor list of the word emitted
      at its draw; without a failed lookup the output is the chain laid out sentence by
      sentence, `records * sentences * (words + 1)` words; a failed lookup happens on the
      corpus's last token and leaves fewer words; every output word is a corpus token. */
  lemma MarkovWalkShape(tokens: seq<string>, wordsPerSentence: int, sentencesPerRecord: int,
                        records: int, seedDraw: nat, pick: nat -> nat)
    requires |tokens| >= 2
    ensures var cache := TransitionTable(tokens);
      var st := MarkovWalk(tokens, wordsPerSentence, sentencesPerRecord, records, seedDraw, pick);
      var seed := Seed(tokens, seedDraw);
      var total := Count(records) * Count(sentencesPerRecord) * (Count(wordsPerSentence) + 1);
      && |st.drawn| >= 2 && st.drawn[0] == tokens[seed] && st.drawn[1] == tokens[seed + 1]
      && (forall i :: 0 <= i < |st.drawn| - 2 ==> st.drawn[i] in cache && st.drawn[i + 2] in cache[st.drawn[i]])
      && (!st.failed ==>
            && |st.words| == total
            && |st.drawn| == Times(Times(Count(records), Count(sentencesPerRecord)), Count(wordsPerSentence)) + 2
            && st.words == Layout(st.drawn, Count(wordsPerSentence), Times(Count(records), Count(sentencesPerRecord))))
      && (st.failed ==>
            && |st.words| < total && st.words != []
            && st.words[|st.words| - 1] !in cache
            && st.words[|st.words| - 1] == tokens[|tokens| - 1])
      && (forall x :: x in st.words ==> x in tokens)
  {
    var w, s, n := Count(wordsPerSentence), Count(sentencesPerRecord), Count(records);
    var m := Times(n, s);
    MarkovWalkAsSentences(tokens, wordsPerSentence, sentencesPerRecord, records, seedDraw, pick);
    SeedSentences(tokens, seedDraw, pick, w, m);
    SentencesFromCorpus(tokens, pick, Initial(tokens, seedDraw), w, m);
    TimesIsProduct(n, s);
    TimesIsProduct(m, w + 1);
    var st := MarkovWalk(tokens, wordsPerSentence, sentencesPerRecord, records, seedDraw, pick);
    forall i | 0 <= i < |st.drawn| - 2
      ensures st.drawn[i] in TransitionTable(tokens) && st.drawn[i + 2] in TransitionTable(tokens)[st.drawn[i]]
    {
      assert Linked(TransitionTable(tokens), st.drawn, i);
    }
    if !st.failed {
      LayoutLength(st.drawn, w, m);
    } else {
      FailedOnLastToken(tokens, st);
    }
  }

  /** The innermost loop of the walk (generator.py:81-84): `w` word steps from a running
      state. A lookup that raises ends the loop after its emission, and `failed` reports
      it; the returned variables are the state after the `w` steps either way. */
  method WalkWords(cache: Table, pick: nat -> nat, w: nat, first: string, second: string, drawsBefore: nat,
                   ghost drawnBefore: seq<string>, wordsBefore: seq<string>)
    returns (word1: string, word2: string, draws: nat, ghost drawn: seq<string>,
             words: seq<string>, failed: bool)
    ensures var t := Words(cache, pick, Walk(first, second, drawsBefore, drawnBefore, wordsBefore, false), w);
      && word1 == t.word1 && word2 == t.word2 && draws == t.draws
      && words == t.words && failed == t.failed
    ensures drawn == Words(cache, pick, Walk(first, second, drawsBefore, drawnBefore, wordsBefore, false), w).drawn
  {
    ghost var st := Walk(first, second, drawsBefore, drawnBefore, wordsBefore, false);
    word1, word2, draws, drawn, words, failed := first, second, drawsBefore, drawnBefore, wordsBefore, false;
    var k := 0;
    while k < w
      invariant k <= w
      invariant Words(cache, pick, st, k) == Walk(word1, word2, draws, drawn, words, false)
    {
      words := words + [word1];
      if word1 !in cache || cache[word1] == [] {
        // KeyError
        failed := true;
        assert Words(cache, pick, st, k + 1) == Walk(word1, word2, draws, drawn, words, true);
        WordsFailedFixed(cache, pick, st, k + 1, w);
        return;
      }
      var successors := cache[word1];
      word1, word2 := word2, successors[pick(draws) % |successors|];
      drawn := drawn + [word2];
      draws := draws + 1;
      k := k + 1;
    }
  }

  /** The Markov generator: the table loop, then the three nested loops of the walk
      (generator.py:64-89). Fewer than two tokens make `randint` raise before the walk;
      a raised lookup ends all three loops; either way the words appended so far are
      returned. */
  method GenerateSimpleMarkovChainNovelText(tokens: seq<string>, wordsPerSentence: int,
                                            sentencesPerRecord: int, records: int,
                                            seedDraw: nat, pick: nat -> nat)
    returns (words: seq<string>)
    ensures words == MarkovText(tokens, wordsPerSentence, sentencesPerRecord, records, seedDraw, pick)
  {
    var cache := BuildTransitionTable(tokens);
    words := [];
    if |tokens| < 2 {
      return;
    }
    var seed := Seed(tokens, seedDraw);
    var word1, word2 := tokens[seed], tokens[seed + 1];
    var draws: nat := 0;
    ghost var drawn := [word1, word2];
    ghost var w, s, n := Count(wordsPerSentence), Count(sentencesPerRecord), Count(records);
    ghost var st0 := Initial(tokens, seedDraw);
    var record := 0;
    while record < Count(records)
      invariant record <= n
      invariant Records(cache, pick, st0, w, s, record) == Walk(word1, word2, draws, drawn, words, false)
    {
      ghost var recordStart := Records(cache, pick, st0, w, s, record);
      var sentence := 0;
      while sentence < Count(sentencesPerRecord)
        invariant sentence <= s
        invariant Sentences(cache, pick, recordStart, w, sentence) == Walk(word1, word2, draws, drawn, words, false)
      {
        var failed;
        word1, word2, draws, drawn, words, failed :=
          WalkWords(cache, pick, Count(wordsPerSentence), word1, word2, draws, drawn, words);
        if failed {
          // the KeyError leaves all three loops
          assert w > 0;
          WalkStopsAt(cache, pick, st0, w, s, n, record, sentence, w - 1);
          return;
        }
        words := words + [word2];
        sentence := sentence + 1;
      }
      // `[item.replace('. .', '.') for item in words]` builds a list nobody keeps
      record := record + 1;
    }
  }
}
