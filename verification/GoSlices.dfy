/**
 Slices over shared backing arrays, as Go's append sees them. A heap is a sequence of
 arrays; array 0 is the empty array behind every nil slice. Every slice here starts at
 the first cell of its array.
 */
module GoSlices {

  type Heap<T> = seq<seq<T>>

  datatype Slice = Slice(arr: nat, len: nat, cap: nat)

  const NIL := Slice(0, 0, 0)

  ghost predicate ValidSlice<T>(heap: Heap<T>, s: Slice) {
    s.arr < |heap| && |heap[s.arr]| == s.cap && s.len <= s.cap
  }

  ghost predicate ValidHeap<T>(heap: Heap<T>) {
    |heap| > 0 && heap[0] == []
  }

  /** The visible part of the slice. */
  function View<T>(heap: Heap<T>, s: Slice): seq<T>
    requires ValidSlice(heap, s)
  {
    heap[s.arr][..s.len]
  }

  /** Stores one cell. */
  function Store<T>(heap: Heap<T>, arr: nat, i: nat, x: T): Heap<T>
    requires arr < |heap| && i < |heap[arr]|
  {
    heap[arr := heap[arr][i := x]]
  }

  /** append(s, x): in place while there is room, otherwise into a new array. What the
      allocator leaves in the spare cells of a new array, and how many it leaves, is
      given by spare. */
  function Append<T>(heap: Heap<T>, s: Slice, x: T, spare: seq<T>): (r: (Heap<T>, Slice))
    requires ValidHeap(heap) && ValidSlice(heap, s)
    ensures ValidHeap(r.0) && ValidSlice(r.0, r.1)
    ensures View(r.0, r.1) == View(heap, s) + [x]
    ensures r.1.arr != 0
    ensures s.len < s.cap ==> r.1.arr == s.arr && r.1.cap == s.cap && |r.0| == |heap|
    ensures s.len == s.cap ==> r.1.arr == |heap| && |r.0| == |heap| + 1
    ensures forall a :: 0 <= a < |heap| && a != r.1.arr ==> r.0[a] == heap[a]
    ensures r.1.arr == s.arr ==> r.0[s.arr] == heap[s.arr][s.len := x]
  {
    if s.len < s.cap then (Store(heap, s.arr, s.len, x), Slice(s.arr, s.len + 1, s.cap))
    else
      var cells := View(heap, s) + [x] + spare;
      (heap + [cells], Slice(|heap|, s.len + 1, |cells|))
  }

  /** The slice shows the same cells in both heaps. */
  ghost predicate SameView<T>(heap: Heap<T>, heap': Heap<T>, s: Slice) {
    ValidSlice(heap, s) && ValidSlice(heap', s) && View(heap', s) == View(heap, s)
  }

  /** An append changes no slice on another array, and none on the same array that
      reaches no further than the slice appended to. */
  lemma AppendKeeps<T>(heap: Heap<T>, s: Slice, x: T, spare: seq<T>, other: Slice)
    requires ValidHeap(heap) && ValidSlice(heap, s) && ValidSlice(heap, other)
    requires other.arr != s.arr || other.len <= s.len
    ensures var r := Append(heap, s, x, spare);
      SameView(heap, r.0, other)
  {
  }

  /** The slice of a key; a missing key gives the nil slice. */
  function At(index: map<string, Slice>, key: string): Slice {
    if key in index then index[key] else NIL
  }

  /** All the slices are valid and no two keys share a backing array. */
  ghost predicate Separate<T>(heap: Heap<T>, index: map<string, Slice>) {
    && ValidHeap(heap)
    && (forall k :: k in index ==> ValidSlice(heap, index[k]) && index[k].arr != 0)
    && (forall j, k :: j in index && k in index && j != k ==> index[j].arr != index[k].arr)
  }

  /** index[key] = append(index[key], x) keeps the arrays separate and changes only the
      slice of that key. */
  lemma AppendAtKey<T>(heap: Heap<T>, index: map<string, Slice>, key: string, x: T, spare: seq<T>)
    requires Separate(heap, index)
    ensures ValidSlice(heap, At(index, key))
    ensures var (heap', s) := Append(heap, At(index, key), x, spare);
      && Separate(heap', index[key := s])
      && View(heap', s) == View(heap, At(index, key)) + [x]
      && (forall k :: k != key ==> SameView(heap, heap', At(index, k)))
  {
    var before := At(index, key);
    var (heap', s) := Append(heap, before, x, spare);
    forall k | k != key
      ensures SameView(heap, heap', At(index, k))
    {
      AppendKeeps(heap, before, x, spare, At(index, k));
    }
  }
}
