/**
 * What `calculateScores` (src/lib/scoring.ts) computes, stated against
 * reference definitions that do not mention the score table: a state's score
 * is the sum, over the questions, of the chosen choice's weight for it; the
 * candidates are the dataset's states and the states the chosen choices name.
 */
module ScoringFacts {
  import opened Wrappers
  import opened QuizTypes
  import opened StableSort
  import opened Scoring

  // ---------------------------------------------------------------------------
  // Reference definitions

  /** The points `ws` gives `code`; 0 when it has no entry for it. */
  function WeightOf(ws: seq<Weight>, code: string): int
  {
    if ws == [] then 0
    else (if ws[0].state == code then ws[0].points else 0) + WeightOf(ws[1..], code)
  }

  /** The states `ws` has an entry for. */
  function WeightKeys(ws: seq<Weight>): set<string>
  {
    if ws == [] then {} else {ws[0].state} + WeightKeys(ws[1..])
  }

  /** What question `q` adds to `code`'s score. */
  function Contribution(q: Question, answers: AnswerMap, code: string): int
  {
    match Selected(q, answers)
    case None => 0
    case Some(c) => WeightOf(c.weights, code)
  }

  /** The score `code` should end with. */
  function TotalWeight(questions: seq<Question>, answers: AnswerMap, code: string): int
  {
    if questions == [] then 0
    else Contribution(questions[0], answers, code) + TotalWeight(questions[1..], answers, code)
  }

  /** The states named by the weights of the chosen choices. */
  function Mentioned(questions: seq<Question>, answers: AnswerMap): set<string>
  {
    if questions == [] then {}
    else
      (match Selected(questions[0], answers)
       case None => {}
       case Some(c) => WeightKeys(c.weights))
      + Mentioned(questions[1..], answers)
  }

  /** The state codes of the dataset. */
  function StateCodes(states: seq<StateInfo>): set<string>
  {
    if states == [] then {} else {states[0].code} + StateCodes(states[1..])
  }

  /** The state codes of the dataset, in dataset order. */
  function CodeSeq(states: seq<StateInfo>): seq<string>
  {
    if states == [] then [] else [states[0].code] + CodeSeq(states[1..])
  }

  /** Everything that can appear in the ranking. */
  function Candidates(states: seq<StateInfo>, questions: seq<Question>, answers: AnswerMap): set<string>
  {
    StateCodes(states) + Mentioned(questions, answers)
  }

  // ---------------------------------------------------------------------------
  // The table steps against the reference definitions

  lemma AddWeightsEffect(t: Table, ws: seq<Weight>)
    ensures Valid(t) ==> Valid(AddWeights(t, ws))
    ensures forall code :: Get(AddWeights(t, ws), code) == Get(t, code) + WeightOf(ws, code)
    ensures t.keys <= AddWeights(t, ws).keys
    ensures Valid(t) ==> forall k :: k in AddWeights(t, ws).keys <==> k in t.keys || k in WeightKeys(ws)
  {
    AddWeightsScores(t, ws);
    AddWeightsKeys(t, ws);
  }

  lemma {:induction false} AddWeightsScores(t: Table, ws: seq<Weight>)
    ensures forall code :: Get(AddWeights(t, ws), code) == Get(t, code) + WeightOf(ws, code)
    decreases |ws|
  {
    if ws != [] {
      var t' := Put(t, ws[0].state, Get(t, ws[0].state) + ws[0].points);
      PutEffect(t, ws[0].state, Get(t, ws[0].state) + ws[0].points);
      AddWeightsScores(t', ws[1..]);
    }
  }

  lemma {:induction false} AddWeightsKeys(t: Table, ws: seq<Weight>)
    ensures Valid(t) ==> Valid(AddWeights(t, ws))
    ensures t.keys <= AddWeights(t, ws).keys
    ensures Valid(t) ==> forall k :: k in AddWeights(t, ws).keys <==> k in t.keys || k in WeightKeys(ws)
    decreases |ws|
  {
    if ws != [] {
      var t' := Put(t, ws[0].state, Get(t, ws[0].state) + ws[0].points);
      PutEffect(t, ws[0].state, Get(t, ws[0].state) + ws[0].points);
      AddWeightsKeys(t', ws[1..]);
    }
  }

  lemma {:induction false} ZeroStatesEffect(t: Table, states: seq<StateInfo>)
    ensures Valid(t) ==> Valid(ZeroStates(t, states))
    ensures forall code :: Get(ZeroStates(t, states), code) == if code in StateCodes(states) then 0 else Get(t, code)
    ensures t.keys <= ZeroStates(t, states).keys
    ensures Valid(t) ==> forall k :: k in ZeroStates(t, states).keys <==> k in t.keys || k in StateCodes(states)
    decreases |states|
  {
    if states != [] {
      PutEffect(t, states[0].code, 0);
      ZeroStatesEffect(Put(t, states[0].code, 0), states[1..]);
    }
  }

  /** With no repeated state code, zeroing the states appends them in dataset order. */
  lemma {:induction false} ZeroStatesOrder(t: Table, states: seq<StateInfo>)
    requires Valid(t)
    requires forall i, j :: 0 <= i < j < |states| ==> states[i].code != states[j].code
    requires forall i :: 0 <= i < |states| ==> states[i].code !in t.keys
    ensures ZeroStates(t, states).keys == t.keys + CodeSeq(states)
    decreases |states|
  {
    if states != [] {
      var code := states[0].code;
      var rest := states[1..];
      var t' := Put(t, code, 0);
      PutEffect(t, code, 0);
      assert t'.keys == t.keys + [code];
      forall i | 0 <= i < |rest| ensures rest[i].code !in t'.keys {
        assert rest[i] == states[i + 1];
      }
      ZeroStatesOrder(t', rest);
      assert CodeSeq(states) == [code] + CodeSeq(rest);
    }
  }

  lemma {:induction false} AccumulateEffect(t: Table, questions: seq<Question>, answers: AnswerMap)
    ensures Valid(t) ==> Valid(AccumulateAll(t, questions, answers))
    ensures forall code :: Get(AccumulateAll(t, questions, answers), code)
                           == Get(t, code) + TotalWeight(questions, answers, code)
    ensures t.keys <= AccumulateAll(t, questions, answers).keys
    ensures Valid(t) ==> forall k :: k in AccumulateAll(t, questions, answers).keys
                                     <==> k in t.keys || k in Mentioned(questions, answers)
    decreases |questions|
  {
    if questions != [] {
      var q := questions[0];
      var t' := Step(t, q, answers);
      if Selected(q, answers).Some? {
        AddWeightsEffect(t, Selected(q, answers).value.weights);
      }
      AccumulateEffect(t', questions[1..], answers);
    }
  }

  lemma {:induction false} StateCodesMembers(states: seq<StateInfo>)
    ensures forall k :: k in StateCodes(states) <==> exists i :: 0 <= i < |states| && states[i].code == k
  {
    if states != [] {
      StateCodesMembers(states[1..]);
      forall k | k in StateCodes(states[1..]) ensures exists i :: 0 <= i < |states| && states[i].code == k {
        var i :| 0 <= i < |states[1..]| && states[1..][i].code == k;
        assert states[i + 1].code == k;
      }
    }
  }

  lemma {:induction false} CodeSeqAt(states: seq<StateInfo>)
    ensures |CodeSeq(states)| == |states|
    ensures forall i :: 0 <= i < |states| ==> CodeSeq(states)[i] == states[i].code
  {
    if states != [] {
      CodeSeqAt(states[1..]);
    }
  }

  // ---------------------------------------------------------------------------
  // The initial table

  /**
   * Before any weight is added, every dataset state has an entry of 0 and no
   * other key exists; with distinct codes the keys are in dataset order.
   */
  lemma InitialTableSpec(states: seq<StateInfo>)
    ensures Valid(InitialTable(states))
    ensures forall i :: 0 <= i < |states| ==>
              states[i].code in InitialTable(states).scores && InitialTable(states).scores[states[i].code] == 0
    ensures forall k :: k in InitialTable(states).keys <==> k in StateCodes(states)
    ensures (forall i, j :: 0 <= i < j < |states| ==> states[i].code != states[j].code) ==>
              InitialTable(states).keys == CodeSeq(states)
  {
    ZeroStatesEffect(EmptyTable, states);
    StateCodesMembers(states);
    var t := InitialTable(states);
    forall i | 0 <= i < |states| ensures states[i].code in t.scores && t.scores[states[i].code] == 0 {
      assert states[i].code in StateCodes(states);
    }
    if forall i, j :: 0 <= i < j < |states| ==> states[i].code != states[j].code {
      ZeroStatesOrder(EmptyTable, states);
    }
  }

  // ---------------------------------------------------------------------------
  // The final table

  /**
   * Each candidate's final score is the sum of the chosen weights for it; the
   * candidates are the dataset states (listed first) and the other states the
   * chosen choices name (listed after them).
   */
  lemma FinalTableSpec(states: seq<StateInfo>, questions: seq<Question>, answers: AnswerMap)
    ensures Valid(FinalTable(states, questions, answers))
    ensures forall code :: Get(FinalTable(states, questions, answers), code) == TotalWeight(questions, answers, code)
    ensures forall k :: k in FinalTable(states, questions, answers).keys <==> k in Candidates(states, questions, answers)
    ensures InitialTable(states).keys <= FinalTable(states, questions, answers).keys
    ensures forall i :: |InitialTable(states).keys| <= i < |FinalTable(states, questions, answers).keys| ==>
              FinalTable(states, questions, answers).keys[i] !in StateCodes(states)
  {
    FinalTableCore(states, questions, answers);
    ZeroStatesEffect(EmptyTable, states);
    AccumulateEffect(InitialTable(states), questions, answers);
  }

  /** The part of `FinalTableSpec` the ranking lemmas use. */
  lemma FinalTableCore(states: seq<StateInfo>, questions: seq<Question>, answers: AnswerMap)
    ensures Valid(FinalTable(states, questions, answers))
    ensures forall code :: Get(FinalTable(states, questions, answers), code) == TotalWeight(questions, answers, code)
    ensures forall k :: k in FinalTable(states, questions, answers).keys <==> k in Candidates(states, questions, answers)
  {
    ZeroStatesEffect(EmptyTable, states);
    AccumulateEffect(InitialTable(states), questions, answers);
  }

  // ---------------------------------------------------------------------------
  // The returned ranking

  lemma {:induction false} DistinctCard(s: seq<string>)
    requires Distinct(s)
    ensures |set k | k in s| == |s|
  {
    if s != [] {
      DistinctCard(s[1..]);
      assert (set k | k in s) == {s[0]} + (set k | k in s[1..]);
      assert s[0] !in (set k | k in s[1..]);
    }
  }

  lemma {:induction false} WithScorePrefix(s: seq<StateScore>, n: nat, v: int)
    requires n <= |s|
    ensures WithScore(s[..n], v) <= WithScore(s, v)
  {
    if n > 0 {
      WithScorePrefix(s[1..], n - 1, v);
      assert s[..n][1..] == s[1..][..n - 1];
    }
  }

  lemma CountAtMostOne(s: seq<StateScore>, x: StateScore)
    requires forall i, j :: 0 <= i < j < |s| ==> s[i] != s[j]
    ensures multiset(s)[x] <= 1
  {
    if s != [] {
      var r := s[1..];
      CountAtMostOne(r, x);
      assert s == [s[0]] + r;
      assert s[0] !in r;
    }
  }

  lemma CountAtLeastTwo(s: seq<StateScore>, i: nat, j: nat)
    requires i < j < |s| && s[i] == s[j]
    ensures multiset(s)[s[i]] >= 2
  {
    assert s == s[..j] + [s[j]] + s[j + 1..];
    assert s[i] in s[..j];
  }

  /** A reordering of a table's records holds each key once, with its score and city. */
  lemma RankedFromRecords(t: Table, states: seq<StateInfo>, ranked: seq<StateScore>)
    requires Valid(t)
    requires multiset(ranked) == multiset(Records(t, states))
    ensures |ranked| == |t.keys|
    ensures forall i :: 0 <= i < |ranked| ==>
              ranked[i].state in t.keys && ranked[i].score == Get(t, ranked[i].state)
              && ranked[i].city == CityOf(states, ranked[i].state)
    ensures forall i, j :: 0 <= i < j < |ranked| ==> ranked[i].state != ranked[j].state
    ensures forall k :: k in t.keys ==> exists m :: 0 <= m < |ranked| && ranked[m].state == k
  {
    var recs := Records(t, states);
    assert |ranked| == |multiset(ranked)| == |multiset(recs)| == |recs|;
    forall i | 0 <= i < |ranked|
      ensures ranked[i].state in t.keys && ranked[i].score == Get(t, ranked[i].state)
      ensures ranked[i].city == CityOf(states, ranked[i].state)
    {
      assert ranked[i] in multiset(ranked);
      assert ranked[i] in recs;
    }
    RankedDistinct(t, states, ranked);
    forall k | k in t.keys ensures exists m :: 0 <= m < |ranked| && ranked[m].state == k {
      var a :| 0 <= a < |t.keys| && t.keys[a] == k;
      assert recs[a] in multiset(recs);
      assert recs[a] in ranked;
    }
  }

  lemma RankedDistinct(t: Table, states: seq<StateInfo>, ranked: seq<StateScore>)
    requires Valid(t)
    requires multiset(ranked) == multiset(Records(t, states))
    ensures forall i, j :: 0 <= i < j < |ranked| ==> ranked[i].state != ranked[j].state
  {
    var recs := Records(t, states);
    forall i | 0 <= i < |ranked| ensures exists k :: 0 <= k < |t.keys| && recs[k] == ranked[i] {
      assert ranked[i] in multiset(ranked);
      assert ranked[i] in recs;
    }
    assert forall a, b :: 0 <= a < b < |recs| ==> recs[a] != recs[b];
    forall i, j | 0 <= i < j < |ranked| ensures ranked[i].state != ranked[j].state {
      if ranked[i].state == ranked[j].state {
        var a :| 0 <= a < |t.keys| && recs[a] == ranked[i];
        var b :| 0 <= b < |t.keys| && recs[b] == ranked[j];
        assert a == b;
        CountAtLeastTwo(ranked, i, j);
        CountAtMostOne(recs, ranked[i]);
        assert false;
      }
    }
  }

  /** In a sorted ranking, an entry past the first `n` scores no higher than any of them. */
  lemma MissingRanksLower(ranked: seq<StateScore>, n: nat, m: nat)
    requires SortedDesc(ranked) && n <= m < |ranked|
    ensures forall i :: 0 <= i < n ==> ranked[m].score <= ranked[i].score
  {
  }

  /** Every entry of the sorted table holds a key of the table once, with its score and city. */
  lemma SortedTableEntries(t: Table, states: seq<StateInfo>)
    requires Valid(t)
    ensures forall i :: 0 <= i < |t.keys| ==>
              SortByScoreDesc(Records(t, states))[i].state in t.keys
              && SortByScoreDesc(Records(t, states))[i].score == Get(t, SortByScoreDesc(Records(t, states))[i].state)
              && SortByScoreDesc(Records(t, states))[i].city == CityOf(states, SortByScoreDesc(Records(t, states))[i].state)
    ensures forall i, j :: 0 <= i < j < |t.keys| ==>
              SortByScoreDesc(Records(t, states))[i].state != SortByScoreDesc(Records(t, states))[j].state
  {
    SortByScoreDescSpec(Records(t, states));
    RankedFromRecords(t, states, SortByScoreDesc(Records(t, states)));
  }

  /** A key of the table missing from the first `n` sorted entries scores no higher than any of them. */
  lemma SortedTableMissing(t: Table, states: seq<StateInfo>, n: nat, k: string)
    requires Valid(t) && n <= |t.keys| && k in t.keys
    requires forall j :: 0 <= j < n ==> SortByScoreDesc(Records(t, states))[j].state != k
    ensures forall i :: 0 <= i < n ==> Get(t, k) <= SortByScoreDesc(Records(t, states))[i].score
  {
    var ranked := SortByScoreDesc(Records(t, states));
    SortByScoreDescSpec(Records(t, states));
    RankedFromRecords(t, states, ranked);
    var m :| 0 <= m < |ranked| && ranked[m].state == k;
    MissingRanksLower(ranked, n, m);
  }

  /** `calculateScores` returns five records, or every candidate when there are fewer. */
  lemma TopScoresLength(states: seq<StateInfo>, questions: seq<Question>, answers: AnswerMap)
    ensures |TopScores(states, questions, answers)| == Min(TopCount, |Candidates(states, questions, answers)|)
  {
    var f := FinalTable(states, questions, answers);
    FinalTableCore(states, questions, answers);
    DistinctCard(f.keys);
    assert (set k | k in f.keys) == Candidates(states, questions, answers);
  }

  /**
   * Each returned record is a different candidate, with its summed weight as
   * score and its city, and scores never increase along the result.
   */
  lemma TopScoresEntries(states: seq<StateInfo>, questions: seq<Question>, answers: AnswerMap)
    ensures SortedDesc(TopScores(states, questions, answers))
    ensures var top := TopScores(states, questions, answers);
            forall i :: 0 <= i < |top| ==>
              top[i].state in Candidates(states, questions, answers)
              && top[i].score == TotalWeight(questions, answers, top[i].state)
              && top[i].city == CityOf(states, top[i].state)
    ensures var top := TopScores(states, questions, answers);
            forall i, j :: 0 <= i < j < |top| ==> top[i].state != top[j].state
  {
    var f := FinalTable(states, questions, answers);
    var ranked := SortByScoreDesc(Records(f, states));
    var top := TopScores(states, questions, answers);
    FinalTableCore(states, questions, answers);
    SortedTableEntries(f, states);
    assert top == ranked[..|top|];
    forall i | 0 <= i < |top|
      ensures top[i].state in Candidates(states, questions, answers)
      ensures top[i].score == TotalWeight(questions, answers, top[i].state)
      ensures top[i].city == CityOf(states, top[i].state)
    {
      assert top[i] == ranked[i];
    }
    forall i, j | 0 <= i < j < |top| ensures top[i].state != top[j].state {
      assert top[i] == ranked[i] && top[j] == ranked[j];
    }
  }

  /** No candidate left out of the result scores above a record in it. */
  lemma TopScoresMaximal(states: seq<StateInfo>, questions: seq<Question>, answers: AnswerMap, code: string)
    requires code in Candidates(states, questions, answers)
    requires forall j :: 0 <= j < |TopScores(states, questions, answers)| ==> TopScores(states, questions, answers)[j].state != code
    ensures forall i :: 0 <= i < |TopScores(states, questions, answers)| ==>
              TotalWeight(questions, answers, code) <= TopScores(states, questions, answers)[i].score
  {
    var f := FinalTable(states, questions, answers);
    var top := TopScores(states, questions, answers);
    FinalTableCore(states, questions, answers);
    TopScoresPrefix(states, questions, answers);
    SortedTableMissing(f, states, |top|, code);
  }

  /** The result is the first records of the sorted final table. */
  lemma TopScoresPrefix(states: seq<StateInfo>, questions: seq<Question>, answers: AnswerMap)
    ensures |TopScores(states, questions, answers)| <= |FinalTable(states, questions, answers).keys|
    ensures forall i :: 0 <= i < |TopScores(states, questions, answers)| ==>
              TopScores(states, questions, answers)[i]
              == SortByScoreDesc(Records(FinalTable(states, questions, answers), states))[i]
  {
  }

  /**
   * Ties keep table order: the returned records of any one score are the first
   * records of that score in the table's key order, in that order.
   */
  lemma TopScoresTies(states: seq<StateInfo>, questions: seq<Question>, answers: AnswerMap, v: int)
    ensures WithScore(TopScores(states, questions, answers), v)
            <= WithScore(Records(FinalTable(states, questions, answers), states), v)
  {
    var f := FinalTable(states, questions, answers);
    var ranked := SortByScoreDesc(Records(f, states));
    var top := TopScores(states, questions, answers);
    SortByScoreDescSpec(Records(f, states));
    WithScorePrefix(ranked, |top|, v);
  }

  // ---------------------------------------------------------------------------
  // Answers that contribute nothing

  lemma {:induction false} SameSelectionSameTable(t: Table, questions: seq<Question>, a: AnswerMap, b: AnswerMap)
    requires forall i :: 0 <= i < |questions| ==> Selected(questions[i], a) == Selected(questions[i], b)
    ensures AccumulateAll(t, questions, a) == AccumulateAll(t, questions, b)
    decreases |questions|
  {
    if questions != [] {
      assert Step(t, questions[0], a) == Step(t, questions[0], b);
      SameSelectionSameTable(Step(t, questions[0], a), questions[1..], a, b);
    }
  }

  /** An empty-string answer (falsy) gives the same result as no answer. */
  lemma EmptyAnswerIgnored(states: seq<StateInfo>, questions: seq<Question>, answers: AnswerMap, qid: string)
    ensures TopScores(states, questions, answers[qid := ""]) == TopScores(states, questions, answers - {qid})
  {
    SameSelectionSameTable(InitialTable(states), questions, answers[qid := ""], answers - {qid});
  }

  /** An answer that names no choice of its question gives the same result as no answer. */
  lemma DanglingAnswerIgnored(states: seq<StateInfo>, questions: seq<Question>, answers: AnswerMap, qid: string)
    requires qid in answers
    requires forall i, k :: 0 <= i < |questions| && questions[i].id == qid && 0 <= k < |questions[i].choices|
               ==> questions[i].choices[k].id != answers[qid]
    ensures TopScores(states, questions, answers) == TopScores(states, questions, answers - {qid})
  {
    SameSelectionSameTable(InitialTable(states), questions, answers, answers - {qid});
  }

  // ---------------------------------------------------------------------------
  // Changing one answer

  lemma {:induction false} SameSelectionSameTotal(questions: seq<Question>, a: AnswerMap, b: AnswerMap, code: string)
    requires forall i :: 0 <= i < |questions| ==> Selected(questions[i], a) == Selected(questions[i], b)
    ensures TotalWeight(questions, a, code) == TotalWeight(questions, b, code)
  {
    if questions != [] {
      SameSelectionSameTotal(questions[1..], a, b, code);
    }
  }

  /**
   * With distinct question ids, answering question `n` with `choiceId`
   * changes each state's score by exactly the new choice's weight minus the
   * replaced choice's weight (either counting 0 when it contributes nothing).
   */
  lemma {:induction false} AnswerChangeDelta(questions: seq<Question>, answers: AnswerMap, n: nat, choiceId: string, code: string)
    requires n < |questions|
    requires forall i, j :: 0 <= i < j < |questions| ==> questions[i].id != questions[j].id
    ensures TotalWeight(questions, answers[questions[n].id := choiceId], code)
            == TotalWeight(questions, answers, code)
               - Contribution(questions[n], answers, code)
               + Contribution(questions[n], answers[questions[n].id := choiceId], code)
  {
    var qid := questions[n].id;
    var b := answers[qid := choiceId];
    var rest := questions[1..];
    if n == 0 {
      forall i | 0 <= i < |rest| ensures Selected(rest[i], answers) == Selected(rest[i], b) {
        assert rest[i] == questions[i + 1];
      }
      SameSelectionSameTotal(rest, answers, b, code);
    } else {
      assert questions[0].id != qid;
      assert rest[n - 1] == questions[n];
      AnswerChangeDelta(rest, answers, n - 1, choiceId, code);
    }
  }

  // ---------------------------------------------------------------------------
  // `validateAnswers` against the scoring

  /** When `validateAnswers` holds, no question is skipped for lack of an answer. */
  lemma ValidatedAnswersAllConsidered(questions: seq<Question>, answers: AnswerMap)
    requires ValidateAnswers(questions, answers)
    ensures forall i :: 0 <= i < |questions| ==>
              Selected(questions[i], answers) == FindChoice(questions[i].choices, answers[questions[i].id])
  {
  }

  // ---------------------------------------------------------------------------
  // A worked example

  /** Two states, one question: the chosen choice's state leads, the other follows with 0. */
  lemma TwoStateExample()
    ensures TopScores(
              [StateInfo("X", "Xland", ["Xcity"]), StateInfo("Y", "Yland", ["Ycity"])],
              [Question("q1", "Pick one", [Choice("choice1", "first", [Weight("X", 5)]),
                                           Choice("choice2", "second", [Weight("Y", 3)])])],
              map["q1" := "choice1"])
            == [StateScore("X", "Xcity", 5), StateScore("Y", "Ycity", 0)]
  {
  }
}
