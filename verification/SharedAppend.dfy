/**
 Evaluate appends the wildcard bucket onto a slice that is stored in the shared index,
 holding only the read lock. This module runs any number of evaluators over shared
 backing arrays, one memory cell at a time and in any order, and shows that nobody can
 tell: every bucket keeps its contents and every evaluator scans its mood's bucket
 followed by the wildcard bucket.
 */
module SharedAppend {
  import opened Engine
  import opened GoSlices
  import opened Rules

  /** An evaluator holding the read lock: it first copies rules into target, up to cell
      done, and then scans target. A target on a new array belongs to it alone; any
      other target lies on the array of its mood's bucket. */
  datatype Evaluator =
    | Copying(mood: string, target: Slice, owned: bool, done: nat)
    | Scanning(mood: string, target: Slice, owned: bool, seen: seq<Rule>)

  datatype State = State(
    heap: Heap<Rule>,
    rulesByMood: map<string, Slice>,
    rules: seq<Rule>,
    readers: map<nat, Evaluator>)

  /** The index over backing arrays stands for the buckets of the rules. */
  ghost predicate SliceIndex(heap: Heap<Rule>, index: map<string, Slice>, rules: seq<Rule>) {
    && Separate(heap, index)
    && (forall m :: ValidSlice(heap, At(index, m)) && View(heap, At(index, m)) == Bucket(rules, m))
  }

  // ----- Building the index by appending -----

  /** The spare parameter says what the allocator leaves in each new array. */
  method BuildSliceIndex(heap: Heap<Rule>, rules: seq<Rule>, spare: nat -> seq<Rule>)
    returns (heap': Heap<Rule>, index: map<string, Slice>)
    requires ValidHeap(heap)
    ensures SliceIndex(heap', index, rules)
    ensures forall m :: m in index ==> index[m].arr >= |heap|
  {
    heap', index := heap, map[];
    for i := 0 to |rules|
      invariant SliceIndex(heap', index, rules[..i])
      invariant |heap'| >= |heap|
      invariant forall m :: m in index ==> index[m].arr >= |heap|
    {
      var rule := rules[i];
      var moods := rule.conditions.mood;
      ghost var done := rules[..i];
      assert SliceIndexPart(heap', index, done, rule, []);
      if |moods| > 0 {
        assert moods[..0] == [];
        for j := 0 to |moods|
          invariant SliceIndexPart(heap', index, done, rule, moods[..j])
          invariant |heap'| >= |heap|
          invariant forall m :: m in index ==> index[m].arr >= |heap|
        {
          assert moods[..j + 1] == moods[..j] + [moods[j]];
          heap', index := EnterRule(heap', index, moods[j], rule, spare, done, moods[..j], |heap|);
        }
        assert moods[..|moods|] == moods;
      } else {
        heap', index := EnterRule(heap', index, WILDCARD, rule, spare, done, [], |heap|);
      }
      PartDone(heap', index, rules, i);
    }
    assert rules[..|rules|] == rules;
  }

  /** index[mood] = append(index[mood], rule) */
  method EnterRule(heap: Heap<Rule>, index: map<string, Slice>, mood: string, rule: Rule, spare: nat -> seq<Rule>,
                   ghost done: seq<Rule>, ghost listed: seq<string>, ghost first: nat)
    returns (heap': Heap<Rule>, index': map<string, Slice>)
    requires SliceIndexPart(heap, index, done, rule, listed)
    requires first <= |heap| && forall m :: m in index ==> index[m].arr >= first
    ensures SliceIndexPart(heap', index', done, rule, listed + [mood])
    ensures |heap'| >= |heap|
    ensures forall m :: m in index' ==> index'[m].arr >= first
  {
    PartNext(heap, index, done, rule, listed, mood, spare(|heap|));
    var (h, s) := Append(heap, At(index, mood), rule, spare(|heap|));
    heap', index' := h, index[mood := s];
  }

  ghost predicate SliceIndexPart(heap: Heap<Rule>, index: map<string, Slice>, done: seq<Rule>, rule: Rule,
                                 listed: seq<string>)
  {
    && Separate(heap, index)
    && (forall m :: ValidSlice(heap, At(index, m)) &&
                    View(heap, At(index, m)) == Bucket(done, m) + Repeat(rule, multiset(listed)[m]))
  }

  lemma PartNext(heap: Heap<Rule>, index: map<string, Slice>, done: seq<Rule>, rule: Rule, listed: seq<string>,
                 mood: string, spare: seq<Rule>)
    requires SliceIndexPart(heap, index, done, rule, listed)
    ensures ValidSlice(heap, At(index, mood))
    ensures var (heap', s) := Append(heap, At(index, mood), rule, spare);
      SliceIndexPart(heap', index[mood := s], done, rule, listed + [mood])
  {
    AppendAtKey(heap, index, mood, rule, spare);
    var (heap', s) := Append(heap, At(index, mood), rule, spare);
    var next := index[mood := s];
    forall m
      ensures ValidSlice(heap', At(next, m))
      ensures View(heap', At(next, m)) == Bucket(done, m) + Repeat(rule, multiset(listed + [mood])[m])
    {
      NextView(Bucket(done, m), rule, listed, mood, m);
      assert View(heap, At(index, m)) == Bucket(done, m) + Repeat(rule, multiset(listed)[m]);
      assert m != mood ==> SameView(heap, heap', At(index, m));
    }
  }

  lemma NextView(before: seq<Rule>, rule: Rule, listed: seq<string>, mood: string, m: string)
    ensures before + Repeat(rule, multiset(listed + [mood])[m]) ==
            before + Repeat(rule, multiset(listed)[m]) + if m == mood then [rule] else []
  {
    assert multiset(listed + [mood])[m] == multiset(listed)[m] + if m == mood then 1 else 0;
  }

  lemma PartDone(heap: Heap<Rule>, index: map<string, Slice>, rules: seq<Rule>, i: nat)
    requires i < |rules|
    requires var moods := rules[i].conditions.mood;
      SliceIndexPart(heap, index, rules[..i], rules[i], if |moods| > 0 then moods else [WILDCARD])
    ensures SliceIndex(heap, index, rules[..i + 1])
  {
    assert rules[..i + 1][..i] == rules[..i];
    forall m ensures ValidSlice(heap, At(index, m)) && View(heap, At(index, m)) == Bucket(rules[..i + 1], m) {
      var values := if |rules[i].conditions.mood| > 0 then rules[i].conditions.mood else [WILDCARD];
      assert multiset(values)[m] == Idx(m, rules[i]);
    }
  }

  // ----- The steps -----

  datatype Step =
    | Begin(id: nat, mood: string, cells: seq<Rule>)
    | CopyCell(id: nat)
    | StartScan(id: nat)
    | ScanCell(id: nat)
    | Release(id: nat)
    | Rebuild(rules: seq<Rule>)

  /** Takes the read lock, reads the two slices and starts the append: in place when the
      bucket has room for the wildcard rules, else into a new array whose initial cells
      are arbitrary. */
  ghost predicate DoBegin(s: State, s': State, id: nat, mood: string, cells: seq<Rule>) {
    var mine, wild := At(s.rulesByMood, mood), At(s.rulesByMood, WILDCARD);
    var needed := mine.len + wild.len;
    && id !in s.readers
    && if needed <= mine.cap then
         s' == s.(readers := s.readers[id := Copying(mood, Slice(mine.arr, needed, mine.cap), false, mine.len)])
       else
         && |cells| >= needed
         && s' == s.(heap := s.heap + [cells],
                     readers := s.readers[id := Copying(mood, Slice(|s.heap|, needed, |cells|), true, 0)])
  }

  /** The append writes into the very array of the mood's bucket if and only if there is
      room behind the bucket for all rules under the star; it then starts behind the
      bucket's visible end. */
  lemma SharesWhenRoom(s: State, s': State, id: nat, mood: string, cells: seq<Rule>)
    requires SliceIndex(s.heap, s.rulesByMood, s.rules) && DoBegin(s, s', id, mood, cells)
    ensures var bucket, e := At(s.rulesByMood, mood), s'.readers[id];
      && (e.target.arr == bucket.arr <==> |Bucket(s.rules, mood)| + |Bucket(s.rules, "*")| <= bucket.cap)
      && (e.target.arr == bucket.arr ==> e.done == |Bucket(s.rules, mood)|)
      && e.target.len == |Candidates(s.rules, mood)|
  {
    assert View(s.heap, At(s.rulesByMood, mood)) == Bucket(s.rules, mood);
    assert View(s.heap, At(s.rulesByMood, WILDCARD)) == Bucket(s.rules, WILDCARD);
  }

  /** Copies one cell: first the old contents (new array only), then the wildcard rules,
      each read from shared memory at this moment. */
  ghost predicate DoCopyCell(s: State, s': State, id: nat) {
    && id in s.readers && s.readers[id].Copying?
    && var e := s.readers[id];
    && var mine, wild := At(s.rulesByMood, e.mood), At(s.rulesByMood, WILDCARD);
    && e.done < e.target.len
    && var from := if e.done < mine.len then mine else wild;
    && var at := if e.done < mine.len then e.done else e.done - mine.len;
    && from.arr < |s.heap| && at < |s.heap[from.arr]|
    && e.target.arr < |s.heap| && e.done < |s.heap[e.target.arr]|
    && s' == s.(heap := Store(s.heap, e.target.arr, e.done, s.heap[from.arr][at]),
                readers := s.readers[id := e.(done := e.done + 1)])
  }

  ghost predicate DoStartScan(s: State, s': State, id: nat) {
    && id in s.readers && s.readers[id].Copying?
    && var e := s.readers[id];
    && e.done >= e.target.len
    && s' == s.(readers := s.readers[id := Scanning(e.mood, e.target, e.owned, [])])
  }

  ghost predicate DoScanCell(s: State, s': State, id: nat) {
    && id in s.readers && s.readers[id].Scanning?
    && var e := s.readers[id];
    && |e.seen| < e.target.len
    && e.target.arr < |s.heap| && |e.seen| < |s.heap[e.target.arr]|
    && s' == s.(readers := s.readers[id := e.(seen := e.seen + [s.heap[e.target.arr][|e.seen|]])])
  }

  ghost predicate MayRelease(s: State, id: nat) {
    && id in s.readers && s.readers[id].Scanning?
    && |s.readers[id].seen| == s.readers[id].target.len
  }

  ghost predicate DoRelease(s: State, s': State, id: nat) {
    MayRelease(s, id) && s' == s.(readers := s.readers - {id})
  }

  /** Load and Reload hold the write lock, so nobody is reading; they build a new index
      on new arrays (see BuildSliceIndex). */
  ghost predicate DoRebuild(s: State, s': State, rules: seq<Rule>) {
    && s.readers == map[]
    && s'.readers == map[]
    && s'.rules == rules
    && SliceIndex(s'.heap, s'.rulesByMood, rules)
  }

  ghost predicate Next(s: State, s': State, step: Step) {
    match step
    case Begin(id, mood, cells) => DoBegin(s, s', id, mood, cells)
    case CopyCell(id) => DoCopyCell(s, s', id)
    case StartScan(id) => DoStartScan(s, s', id)
    case ScanCell(id) => DoScanCell(s, s', id)
    case Release(id) => DoRelease(s, s', id)
    case Rebuild(rules) => DoRebuild(s, s', rules)
  }

  ghost predicate Init(s: State) {
    s.readers == map[] && SliceIndex(s.heap, s.rulesByMood, s.rules)
  }

  ghost predicate Run(states: seq<State>, steps: seq<Step>) {
    && |states| == |steps| + 1
    && Init(states[0])
    && forall i :: 0 <= i < |steps| ==> Next(states[i], states[i + 1], steps[i])
  }

  // ----- The invariant -----

  /** How far the evaluator's target is known to hold the candidates. */
  ghost function Filled(e: Evaluator): nat {
    if e.Copying? then e.done else e.target.len
  }

  /** The evaluator is on its way to scanning the wanted rules; mine is its mood's slice. */
  ghost predicate Reads(heap: Heap<Rule>, mine: Slice, wanted: seq<Rule>, e: Evaluator) {
    && ValidSlice(heap, e.target)
    && e.target.len == |wanted|
    && Filled(e) <= e.target.len
    && heap[e.target.arr][..Filled(e)] == wanted[..Filled(e)]
    && (!e.owned ==> e.target.arr == mine.arr && Filled(e) >= mine.len)
    && (e.Scanning? ==> |e.seen| <= |wanted| && e.seen == wanted[..|e.seen|])
  }

  ghost predicate ReaderOk(s: State, e: Evaluator) {
    Reads(s.heap, At(s.rulesByMood, e.mood), Candidates(s.rules, e.mood), e)
  }

  ghost predicate NotShared(s: State, id: nat)
    requires id in s.readers
  {
    var e := s.readers[id];
    e.owned ==>
      && e.target.arr != 0
      && (forall m :: m in s.rulesByMood ==> s.rulesByMood[m].arr != e.target.arr)
      && (forall j :: j in s.readers && j != id ==> s.readers[j].target.arr != e.target.arr)
  }

  ghost predicate Inv(s: State) {
    && SliceIndex(s.heap, s.rulesByMood, s.rules)
    && (forall id :: id in s.readers ==> ReaderOk(s, s.readers[id]))
    && (forall id :: id in s.readers ==> NotShared(s, id))
  }

  // Storing a cell, or adding an array, harms neither the index nor a reader

  lemma StoreKeepsIndex(heap: Heap<Rule>, index: map<string, Slice>, rules: seq<Rule>, arr: nat, i: nat, x: Rule)
    requires SliceIndex(heap, index, rules)
    requires arr < |heap| && i < |heap[arr]|
    requires forall m :: m in index && index[m].arr == arr ==> index[m].len <= i
    ensures SliceIndex(Store(heap, arr, i, x), index, rules)
  {
    var heap' := Store(heap, arr, i, x);
    forall m ensures SameView(heap, heap', At(index, m)) {
      assert ValidSlice(heap, At(index, m));
    }
    SameViewsSameIndex(heap, heap', index, rules);
  }

  lemma GrowKeepsIndex(heap: Heap<Rule>, index: map<string, Slice>, rules: seq<Rule>, cells: seq<Rule>)
    requires SliceIndex(heap, index, rules)
    ensures SliceIndex(heap + [cells], index, rules)
  {
    forall m ensures SameView(heap, heap + [cells], At(index, m)) {
      assert ValidSlice(heap, At(index, m));
    }
    SameViewsSameIndex(heap, heap + [cells], index, rules);
  }

  lemma SameViewsSameIndex(heap: Heap<Rule>, heap': Heap<Rule>, index: map<string, Slice>, rules: seq<Rule>)
    requires SliceIndex(heap, index, rules) && ValidHeap(heap')
    requires forall m :: SameView(heap, heap', At(index, m))
    ensures SliceIndex(heap', index, rules)
  {
    forall m ensures ValidSlice(heap', At(index, m)) && View(heap', At(index, m)) == Bucket(rules, m) {
      assert SameView(heap, heap', At(index, m));
    }
    forall m | m in index ensures ValidSlice(heap', index[m]) {
      assert SameView(heap, heap', At(index, m));
    }
  }

  lemma StoreKeepsReader(heap: Heap<Rule>, mine: Slice, wanted: seq<Rule>, e: Evaluator, arr: nat, i: nat, x: Rule)
    requires Reads(heap, mine, wanted, e)
    requires arr < |heap| && i < |heap[arr]|
    requires arr == e.target.arr ==> i < |wanted| && x == wanted[i]
    ensures Reads(Store(heap, arr, i, x), mine, wanted, e)
  {
    var heap' := Store(heap, arr, i, x);
    var n := Filled(e);
    forall k | 0 <= k < n ensures heap'[e.target.arr][k] == wanted[k] {
      assert heap[e.target.arr][..n][k] == wanted[..n][k];
    }
  }

  lemma GrowKeepsReader(heap: Heap<Rule>, mine: Slice, wanted: seq<Rule>, e: Evaluator, cells: seq<Rule>)
    requires Reads(heap, mine, wanted, e)
    ensures Reads(heap + [cells], mine, wanted, e)
  {
  }

  lemma CandidateCells(s: State, mood: string)
    requires Inv(s)
    ensures var mine, wild := At(s.rulesByMood, mood), At(s.rulesByMood, WILDCARD);
      var wanted := Candidates(s.rules, mood);
      && ValidSlice(s.heap, mine) && ValidSlice(s.heap, wild)
      && |wanted| == mine.len + wild.len
      && s.heap[mine.arr][..mine.len] == wanted[..mine.len]
      && (forall i :: 0 <= i < mine.len ==> s.heap[mine.arr][i] == wanted[i])
      && (forall i :: mine.len <= i < |wanted| ==> s.heap[wild.arr][i - mine.len] == wanted[i])
  {
    var mine, wild := At(s.rulesByMood, mood), At(s.rulesByMood, WILDCARD);
    assert View(s.heap, mine) == Bucket(s.rules, mood) && View(s.heap, wild) == Bucket(s.rules, WILDCARD);
  }

  lemma BeginKeeps(s: State, s': State, id: nat, mood: string, cells: seq<Rule>)
    requires Inv(s) && DoBegin(s, s', id, mood, cells)
    ensures Inv(s')
  {
    if s'.readers[id].owned {
      GrowKeepsIndex(s.heap, s.rulesByMood, s.rules, cells);
    }
    BeginReader(s, s', id, mood, cells);
    forall j | j in s'.readers && j != id ensures ReaderOk(s', s'.readers[j]) && NotShared(s', j) {
      BeginOther(s, s', id, mood, cells, j);
    }
  }

  lemma BeginReader(s: State, s': State, id: nat, mood: string, cells: seq<Rule>)
    requires Inv(s) && DoBegin(s, s', id, mood, cells)
    ensures ReaderOk(s', s'.readers[id]) && NotShared(s', id)
  {
    CandidateCells(s, mood);
    forall j | j in s.readers ensures s.readers[j].target.arr < |s.heap| {
      assert ReaderOk(s, s.readers[j]);
    }
  }

  lemma BeginOther(s: State, s': State, id: nat, mood: string, cells: seq<Rule>, j: nat)
    requires Inv(s) && DoBegin(s, s', id, mood, cells) && j in s.readers
    ensures ReaderOk(s', s'.readers[j]) && NotShared(s', j)
  {
    var f := s.readers[j];
    assert ReaderOk(s, f) && NotShared(s, j);
    CandidateCells(s, mood);
    if s'.readers[id].owned {
      GrowKeepsReader(s.heap, At(s.rulesByMood, f.mood), Candidates(s.rules, f.mood), f, cells);
    }
  }

  /** What a copy step writes is the next candidate. */
  lemma CopiedRule(s: State, s': State, id: nat)
    requires Inv(s) && DoCopyCell(s, s', id)
    ensures var e := s.readers[id];
      var wanted := Candidates(s.rules, e.mood);
      e.done < |wanted| && s'.heap == Store(s.heap, e.target.arr, e.done, wanted[e.done])
  {
    assert ReaderOk(s, s.readers[id]);
    CandidateCells(s, s.readers[id].mood);
  }

  /** A copied cell already held that rule for everybody who can see it. */
  lemma CopyCellKeeps(s: State, s': State, id: nat)
    requires Inv(s) && DoCopyCell(s, s', id)
    ensures Inv(s')
  {
    var e := s.readers[id];
    assert ReaderOk(s, e) && NotShared(s, id);
    CopiedRule(s, s', id);
    StoreKeepsIndex(s.heap, s.rulesByMood, s.rules, e.target.arr, e.done, Candidates(s.rules, e.mood)[e.done]);
    CopyAdvances(s.heap, At(s.rulesByMood, e.mood), Candidates(s.rules, e.mood), e);
    assert ReaderOk(s', s'.readers[id]) && NotShared(s', id);
    forall j | j in s'.readers && j != id ensures ReaderOk(s', s'.readers[j]) && NotShared(s', j) {
      CopyCellOther(s, s', id, j);
    }
  }

  lemma CopyAdvances(heap: Heap<Rule>, mine: Slice, wanted: seq<Rule>, e: Evaluator)
    requires Reads(heap, mine, wanted, e) && e.Copying? && e.done < |wanted|
    ensures Reads(Store(heap, e.target.arr, e.done, wanted[e.done]), mine, wanted, e.(done := e.done + 1))
  {
    var heap' := Store(heap, e.target.arr, e.done, wanted[e.done]);
    assert heap'[e.target.arr][..e.done] == heap[e.target.arr][..e.done];
    assert wanted[..e.done + 1] == wanted[..e.done] + [wanted[e.done]];
    assert heap'[e.target.arr][..e.done + 1] == heap'[e.target.arr][..e.done] + [wanted[e.done]];
  }

  lemma CopyCellOther(s: State, s': State, id: nat, j: nat)
    requires Inv(s) && DoCopyCell(s, s', id) && j in s.readers && j != id
    ensures ReaderOk(s', s'.readers[j]) && NotShared(s', j)
  {
    var e, f := s.readers[id], s.readers[j];
    assert ReaderOk(s, e) && NotShared(s, id);
    assert ReaderOk(s, f) && NotShared(s, j);
    CopiedRule(s, s', id);
    if f.target.arr == e.target.arr {
      assert !e.owned && !f.owned;
      assert f.mood == e.mood;
    }
    var x := Candidates(s.rules, e.mood)[e.done];
    StoreKeepsReader(s.heap, At(s.rulesByMood, f.mood), Candidates(s.rules, f.mood), f, e.target.arr, e.done, x);
  }

  lemma ScanKeeps(s: State, s': State, id: nat)
    requires Inv(s) && (DoStartScan(s, s', id) || DoScanCell(s, s', id) || DoRelease(s, s', id))
    ensures Inv(s')
  {
    forall j | j in s'.readers ensures ReaderOk(s', s'.readers[j]) && NotShared(s', j) {
      ScanKeepsReader(s, s', id, j);
    }
  }

  lemma ScanKeepsReader(s: State, s': State, id: nat, j: nat)
    requires Inv(s) && (DoStartScan(s, s', id) || DoScanCell(s, s', id) || DoRelease(s, s', id)) && j in s'.readers
    ensures ReaderOk(s', s'.readers[j]) && NotShared(s', j)
  {
    var e := s.readers[j];
    assert ReaderOk(s, e) && NotShared(s, j);
    if j == id {
      ScanStep(s.heap, At(s.rulesByMood, e.mood), Candidates(s.rules, e.mood), e, s'.readers[id]);
    }
  }

  lemma ScanStep(heap: Heap<Rule>, mine: Slice, wanted: seq<Rule>, e: Evaluator, e': Evaluator)
    requires Reads(heap, mine, wanted, e)
    requires (e.Copying? && e.done >= e.target.len && e' == Scanning(e.mood, e.target, e.owned, [])) ||
             (e.Scanning? && |e.seen| < e.target.len && e' == e.(seen := e.seen + [heap[e.target.arr][|e.seen|]]))
    ensures Reads(heap, mine, wanted, e')
  {
    if e.Scanning? {
      var n := |e.seen|;
      assert heap[e.target.arr][..e.target.len][n] == wanted[..e.target.len][n];
      assert wanted[..n + 1] == wanted[..n] + [wanted[n]];
    }
  }

  lemma NextKeeps(s: State, s': State, step: Step)
    requires Inv(s) && Next(s, s', step)
    ensures Inv(s')
  {
    match step
    case Begin(id, mood, cells) => BeginKeeps(s, s', id, mood, cells);
    case CopyCell(id) => CopyCellKeeps(s, s', id);
    case StartScan(id) => ScanKeeps(s, s', id);
    case ScanCell(id) => ScanKeeps(s, s', id);
    case Release(id) => ScanKeeps(s, s', id);
    case Rebuild(rules) =>
  }

  lemma {:induction false} InvAlways(states: seq<State>, steps: seq<Step>, n: nat)
    requires Run(states, steps) && n < |states|
    ensures Inv(states[n])
  {
    if n > 0 {
      InvAlways(states, steps, n - 1);
      NextKeeps(states[n - 1], states[n], steps[n - 1]);
    }
  }

  // ----- What every run guarantees -----

  /** In every state of every run, each bucket shows exactly the rules it should. */
  lemma BucketsStayIntact(states: seq<State>, steps: seq<Step>, n: nat, mood: string)
    requires Run(states, steps) && n < |states|
    ensures var s := states[n];
      ValidSlice(s.heap, At(s.rulesByMood, mood)) && View(s.heap, At(s.rulesByMood, mood)) == Bucket(s.rules, mood)
  {
    InvAlways(states, steps, n);
  }

  /** Whenever an evaluator is about to release the lock, what it scanned is its mood's
      bucket followed by the wildcard bucket of the rules loaded at that time. */
  lemma EveryScanIsExact(states: seq<State>, steps: seq<Step>, n: nat, id: nat)
    requires Run(states, steps) && n < |states| && MayRelease(states[n], id)
    ensures states[n].readers[id].seen == Candidates(states[n].rules, states[n].readers[id].mood)
  {
    InvAlways(states, steps, n);
    assert ReaderOk(states[n], states[n].readers[id]);
  }

  /** No evaluator gets stuck: in every reachable state it can copy, scan or release. */
  lemma EvaluatorsNeverStick(states: seq<State>, steps: seq<Step>, n: nat, id: nat) returns (step: Step, s': State)
    requires Run(states, steps) && n < |states| && id in states[n].readers
    ensures step in {CopyCell(id), StartScan(id), ScanCell(id), Release(id)}
    ensures Next(states[n], s', step)
  {
    InvAlways(states, steps, n);
    var s := states[n];
    var e := s.readers[id];
    assert ReaderOk(s, e);
    if e.Copying? && e.done < e.target.len {
      step := CopyCell(id);
      s' := CanCopy(s, id);
    } else if e.Copying? {
      step := StartScan(id);
      s' := s.(readers := s.readers[id := Scanning(e.mood, e.target, e.owned, [])]);
    } else if |e.seen| < e.target.len {
      step := ScanCell(id);
      s' := s.(readers := s.readers[id := e.(seen := e.seen + [s.heap[e.target.arr][|e.seen|]])]);
    } else {
      step := Release(id);
      s' := s.(readers := s.readers - {id});
    }
  }

  lemma CanCopy(s: State, id: nat) returns (s': State)
    requires Inv(s) && id in s.readers && s.readers[id].Copying?
    requires s.readers[id].done < s.readers[id].target.len
    ensures DoCopyCell(s, s', id)
  {
    var e := s.readers[id];
    assert ReaderOk(s, e);
    CandidateCells(s, e.mood);
    var x := Candidates(s.rules, e.mood)[e.done];
    s' := s.(heap := Store(s.heap, e.target.arr, e.done, x), readers := s.readers[id := e.(done := e.done + 1)]);
  }
}
