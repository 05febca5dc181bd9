/**
 * The quiz scoring engine (src/lib/scoring.ts). The two datasets the source
 * imports as JSON are parameters here: `states` and `questions`.
 *
 * `calculateScores` builds a score table (a JavaScript object, whose keys keep
 * their insertion order) with every dataset state at 0, adds the weights of
 * every chosen choice into it, turns it into `StateScore` records, sorts them
 * by descending score and keeps the first five. `CalculateScores` runs those
 * loops; `TopScores` and the functions under it say what the result is, and
 * the lemmas below state what that result means.
 */
module Scoring {
  import opened Wrappers
  import opened QuizTypes
  import opened StableSort

  /** How many records `calculateScores` returns. */
  const TopCount: nat := 5

  function Min(a: int, b: int): int { if a <= b then a else b }

  // ---------------------------------------------------------------------------
  // The score table (`stateScores`)

  /** An object `Record<string, number>`: its keys in insertion order and their values. */
  datatype Table = Table(keys: seq<string>, scores: map<string, int>)

  ghost predicate Distinct(s: seq<string>)
  {
    forall i, j :: 0 <= i < j < |s| ==> s[i] != s[j]
  }

  /** Each key is listed once, and exactly the keys with a value are listed. */
  ghost predicate Valid(t: Table)
  {
    Distinct(t.keys) && forall k :: k in t.scores <==> k in t.keys
  }

  const EmptyTable := Table([], map[])

  /** `t[code] || 0`: an absent key reads as 0. */
  function Get(t: Table, code: string): int
  {
    if code in t.scores then t.scores[code] else 0
  }

  /** `t[code] = v`: a new key goes to the end, an existing one keeps its place. */
  function Put(t: Table, code: string, v: int): Table
  {
    if code in t.scores then Table(t.keys, t.scores[code := v])
    else Table(t.keys + [code], t.scores[code := v])
  }

  /** What a write does to the table; kept out of `Put`'s contract so that folds of `Put` stay cheap. */
  lemma PutEffect(t: Table, code: string, v: int)
    ensures Valid(t) ==> Valid(Put(t, code, v))
    ensures Get(Put(t, code, v), code) == v
    ensures forall k :: k != code ==> Get(Put(t, code, v), k) == Get(t, k)
    ensures t.keys <= Put(t, code, v).keys
    ensures Valid(t) ==> forall k :: k in Put(t, code, v).keys <==> k in t.keys || k == code
  {
  }

  // ---------------------------------------------------------------------------
  // Lookups

  /** `s.find(x => key(x) === k)`: the first element whose key is `k`. */
  function FindFirst<T>(s: seq<T>, key: T -> string, k: string): (r: Option<T>)
    ensures r.None? <==> forall i :: 0 <= i < |s| ==> key(s[i]) != k
    ensures r.Some? ==> exists i :: 0 <= i < |s| && s[i] == r.value && key(r.value) == k
                                    && forall j :: 0 <= j < i ==> key(s[j]) != k
  {
    if s == [] then None
    else if key(s[0]) == k then Some(s[0])
    else
      var r := FindFirst(s[1..], key, k);
      assert r.Some? ==> exists i :: 0 <= i < |s[1..]| && s[1..][i] == r.value && key(r.value) == k
                                    && forall j :: 0 <= j < i ==> key(s[1..][j]) != k;
      r
  }

  /** `choices.find(c => c.id === id)`: the first choice with that id. */
  function FindChoice(choices: seq<Choice>, id: string): (r: Option<Choice>)
    ensures r.None? <==> forall i :: 0 <= i < |choices| ==> choices[i].id != id
    ensures r.Some? ==> exists i :: 0 <= i < |choices| && choices[i] == r.value && r.value.id == id
                                    && forall j :: 0 <= j < i ==> choices[j].id != id
  {
    FindFirst(choices, (c: Choice) => c.id, id)
  }

  /** `statesData.find(s => s.state_code === code)`: the first state record with that code. */
  function FindState(states: seq<StateInfo>, code: string): (r: Option<StateInfo>)
    ensures r.None? <==> forall i :: 0 <= i < |states| ==> states[i].code != code
    ensures r.Some? ==> exists i :: 0 <= i < |states| && states[i] == r.value && r.value.code == code
                                    && forall j :: 0 <= j < i ==> states[j].code != code
  {
    FindFirst(states, (st: StateInfo) => st.code, code)
  }

  /** `stateData?.top_cities[0] || ""`. */
  function CityOf(states: seq<StateInfo>, code: string): string
  {
    match FindState(states, code)
    case None => ""
    case Some(s) => if |s.topCities| > 0 then s.topCities[0] else ""
  }

  /**
   * The choice a question contributes: none when the answer is absent or the
   * empty string (both falsy), or when no choice of the question has that id.
   */
  function Selected(q: Question, answers: AnswerMap): Option<Choice>
  {
    if q.id in answers && answers[q.id] != "" then FindChoice(q.choices, answers[q.id]) else None
  }

  // ---------------------------------------------------------------------------
  // The steps of `calculateScores`, as functions of the table

  /** `statesData.forEach(state => { stateScores[state.state_code] = 0 })`, from table `t`. */
  function ZeroStates(t: Table, states: seq<StateInfo>): Table
    decreases |states|
  {
    if states == [] then t else ZeroStates(Put(t, states[0].code, 0), states[1..])
  }

  function InitialTable(states: seq<StateInfo>): Table
  {
    ZeroStates(EmptyTable, states)
  }

  /** `Object.entries(weights).forEach(([code, w]) => { t[code] = (t[code] || 0) + w })`. */
  function AddWeights(t: Table, ws: seq<Weight>): Table
    decreases |ws|
  {
    if ws == [] then t
    else AddWeights(Put(t, ws[0].state, Get(t, ws[0].state) + ws[0].points), ws[1..])
  }

  /** One turn of the weights loop: the entry at `k` first, then the rest. */
  lemma AddWeightsFrom(t: Table, ws: seq<Weight>, k: nat)
    requires k < |ws|
    ensures AddWeights(t, ws[k..]) == AddWeights(Put(t, ws[k].state, Get(t, ws[k].state) + ws[k].points), ws[k + 1..])
  {
    assert ws[k..][0] == ws[k] && ws[k..][1..] == ws[k + 1..];
  }

  /** The body of `questionsData.forEach` for one question. */
  function Step(t: Table, q: Question, answers: AnswerMap): Table
  {
    match Selected(q, answers)
    case None => t
    case Some(c) => AddWeights(t, c.weights)
  }

  function AccumulateAll(t: Table, questions: seq<Question>, answers: AnswerMap): Table
    decreases |questions|
  {
    if questions == [] then t
    else AccumulateAll(Step(t, questions[0], answers), questions[1..], answers)
  }

  /** `stateScores` once every question has been processed. */
  function FinalTable(states: seq<StateInfo>, questions: seq<Question>, answers: AnswerMap): Table
  {
    AccumulateAll(InitialTable(states), questions, answers)
  }

  /** `Object.entries(stateScores).map(...)`: one record per key, in key order. */
  function Records(t: Table, states: seq<StateInfo>): (r: seq<StateScore>)
    ensures |r| == |t.keys|
  {
    seq(|t.keys|, i requires 0 <= i < |t.keys| => StateScore(t.keys[i], CityOf(states, t.keys[i]), Get(t, t.keys[i])))
  }

  /** Every candidate, sorted (stably) by descending score. */
  function Ranked(states: seq<StateInfo>, questions: seq<Question>, answers: AnswerMap): seq<StateScore>
  {
    SortByScoreDesc(Records(FinalTable(states, questions, answers), states))
  }

  /** What `calculateScores` returns: `rankedStates.slice(0, 5)`. */
  function TopScores(states: seq<StateInfo>, questions: seq<Question>, answers: AnswerMap): seq<StateScore>
  {
    var ranked := Ranked(states, questions, answers);
    ranked[..Min(TopCount, |ranked|)]
  }

  // ---------------------------------------------------------------------------
  // The imperative engine

  /** `calculateScores(answers)`, with the two datasets passed in. */
  method CalculateScores(states: seq<StateInfo>, questions: seq<Question>, answers: AnswerMap)
    returns (top: seq<StateScore>)
    ensures top == TopScores(states, questions, answers)
  {
    var t := EmptyTable;
    for i := 0 to |states|
      invariant ZeroStates(t, states[i..]) == InitialTable(states)
    {
      assert states[i..][0] == states[i] && states[i..][1..] == states[i + 1..];
      t := Put(t, states[i].code, 0);
    }
    assert t == InitialTable(states) by { assert states[|states|..] == []; }
    for j := 0 to |questions|
      invariant AccumulateAll(t, questions[j..], answers) == FinalTable(states, questions, answers)
    {
      var q := questions[j];
      assert questions[j..][0] == q && questions[j..][1..] == questions[j + 1..];
      if q.id !in answers || answers[q.id] == "" {
        assert Step(t, q, answers) == t;
        continue;
      }
      var choice := FindChoice(q.choices, answers[q.id]);
      if choice.None? {
        assert Step(t, q, answers) == t;
        continue;
      }
      var ws := choice.value.weights;
      ghost var before := t;
      for k := 0 to |ws|
        invariant AddWeights(t, ws[k..]) == AddWeights(before, ws)
      {
        AddWeightsFrom(t, ws, k);
        t := Put(t, ws[k].state, Get(t, ws[k].state) + ws[k].points);
      }
      assert t == Step(before, q, answers) by { assert ws[|ws|..] == []; }
    }
    assert t == FinalTable(states, questions, answers) by { assert questions[|questions|..] == []; }
    var ranked := SortByScoreDesc(Records(t, states));
    top := ranked[..Min(TopCount, |ranked|)];
  }

  // ---------------------------------------------------------------------------
  // `validateAnswers`

  /** `questionsData.map(q => q.id).every(qId => answers[qId])`. */
  function ValidateAnswers(questions: seq<Question>, answers: AnswerMap): (ok: bool)
    ensures ok <==> forall i :: 0 <= i < |questions| ==> questions[i].id in answers && answers[questions[i].id] != ""
  {
    if questions == [] then true
    else
      var q := questions[0];
      var rest := ValidateAnswers(questions[1..], answers);
      assert forall i :: 1 <= i < |questions| ==> questions[i] == questions[1..][i - 1];
      q.id in answers && answers[q.id] != "" && rest
  }
}
