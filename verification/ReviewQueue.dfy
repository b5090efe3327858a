/** The review queue and its two stores (src/kgcs/review/queue.py). */
module ReviewQueue {
  import opened Wrappers
  import opened CanonicalJson

  const ITEM_ID: string := "item_id"

  type Fields = m: map<string, Json> | ITEM_ID !in m witness map[]

  /** A contract model by its id and the other fields of its JSON dump. */
  datatype ReviewItem = ReviewItem(itemId: string, rest: Fields)

  datatype ReviewDecision = ReviewDecision(itemId: string, rest: Fields)

  /** Pending items in insertion order, one per id; every item's decisions in order. */
  datatype QueueState = QueueState(pending: seq<ReviewItem>, history: map<string, seq<ReviewDecision>>)

  const EMPTY: QueueState := QueueState([], map[])

  datatype QueueError = Retryable | Permanent

  /* ---------- a snapshot ---------- */

  /** Where the id is pending; |pending| if it is not. */
  function IndexOfId(pending: seq<ReviewItem>, id: string): (i: nat)
    ensures i <= |pending| && (i < |pending| ==> pending[i].itemId == id)
    ensures forall k :: 0 <= k < i ==> pending[k].itemId != id
  {
    if pending == [] then 0 else if pending[0].itemId == id then 0 else 1 + IndexOfId(pending[1..], id)
  }

  /** Assignment under the item's id: an id that is there keeps its place. */
  function Put(pending: seq<ReviewItem>, item: ReviewItem): seq<ReviewItem> {
    var i := IndexOfId(pending, item.itemId);
    if i < |pending| then pending[i := item] else pending + [item]
  }

  function Pop(pending: seq<ReviewItem>, id: string): seq<ReviewItem> {
    var i := IndexOfId(pending, id);
    if i < |pending| then pending[..i] + pending[i + 1..] else pending
  }

  function HistoryOf(s: QueueState, id: string): seq<ReviewDecision> {
    if id in s.history then s.history[id] else []
  }

  datatype Op = Enqueue(item: ReviewItem) | Resolve(decision: ReviewDecision)

  function Applied(s: QueueState, op: Op): QueueState {
    match op
    case Enqueue(item) => s.(pending := Put(s.pending, item))
    case Resolve(d) =>
      QueueState(Pop(s.pending, d.itemId), s.history[d.itemId := HistoryOf(s, d.itemId) + [d]])
  }

  function OpId(op: Op): string {
    match op case Enqueue(item) => item.itemId case Resolve(d) => d.itemId
  }

  /** The first `limit` items; a negative limit leaves that many off the end. */
  function Limited(pending: seq<ReviewItem>, limit: int): seq<ReviewItem> {
    var n := if limit >= 0 then limit else |pending| + limit;
    pending[..if n < 0 then 0 else if n > |pending| then |pending| else n]
  }

  predicate Distinct(pending: seq<ReviewItem>) {
    forall i, j :: 0 <= i < j < |pending| ==> pending[i].itemId != pending[j].itemId
  }

  lemma PutKeepsDistinct(pending: seq<ReviewItem>, item: ReviewItem)
    requires Distinct(pending)
    ensures Distinct(Put(pending, item))
  {
  }

  lemma PopKeepsDistinct(pending: seq<ReviewItem>, id: string)
    requires Distinct(pending)
    ensures Distinct(Pop(pending, id))
  {
  }

  lemma AppliedKeepsDistinct(s: QueueState, op: Op)
    requires Distinct(s.pending)
    ensures Distinct(Applied(s, op).pending)
  {
    match op
    case Enqueue(item) => PutKeepsDistinct(s.pending, item);
    case Resolve(d) => PopKeepsDistinct(s.pending, d.itemId);
  }

  /* ---------- the document ---------- */

  function DumpItem(i: ReviewItem): Json { Obj(i.rest[ITEM_ID := Str(i.itemId)]) }

  function DumpDecision(d: ReviewDecision): Json { Obj(d.rest[ITEM_ID := Str(d.itemId)]) }

  predicate Identified(j: Json) { j.Obj? && ITEM_ID in j.fields && j.fields[ITEM_ID].Str? }

  function ReadItem(j: Json): ReviewItem
    requires Identified(j)
  {
    ReviewItem(j.fields[ITEM_ID].text, j.fields - {ITEM_ID})
  }

  function ReadDecision(j: Json): ReviewDecision
    requires Identified(j)
  {
    ReviewDecision(j.fields[ITEM_ID].text, j.fields - {ITEM_ID})
  }

  function DumpItems(items: seq<ReviewItem>): seq<Json> {
    seq(|items|, i requires 0 <= i < |items| => DumpItem(items[i]))
  }

  function DumpDecisions(ds: seq<ReviewDecision>): seq<Json> {
    seq(|ds|, i requires 0 <= i < |ds| => DumpDecision(ds[i]))
  }

  predicate AllIdentified(js: seq<Json>) { forall j <- js :: Identified(j) }

  /** The entries put one after the other. */
  function ReadItems(js: seq<Json>): seq<ReviewItem>
    requires AllIdentified(js)
  {
    if js == [] then [] else Put(ReadItems(js[..|js| - 1]), ReadItem(js[|js| - 1]))
  }

  function ReadDecisions(js: seq<Json>): seq<ReviewDecision>
    requires AllIdentified(js)
  {
    seq(|js|, i requires 0 <= i < |js| => ReadDecision(js[i]))
  }

  const PENDING: string := "pending"

  const HISTORY: string := "history"

  function SaveDoc(s: QueueState): Json {
    Obj(map[PENDING := Arr(DumpItems(s.pending)),
            HISTORY := Obj(DumpHistory(s.history))])
  }

  function DumpHistory(history: map<string, seq<ReviewDecision>>): map<string, Json> {
    map id <- history :: Arr(DumpDecisions(history[id]))
  }

  function ReadHistory(fields: map<string, Json>): map<string, seq<ReviewDecision>>
    requires ReadableHistory(Obj(fields))
  {
    map id <- fields :: ReadDecisions(fields[id].items)
  }

  function Field(fields: map<string, Json>, key: string, default: Json): Json {
    if key in fields then fields[key] else default
  }

  predicate ReadableHistory(j: Json) {
    j.Obj? && forall id <- j.fields :: j.fields[id].Arr? && AllIdentified(j.fields[id].items)
  }

  predicate Readable(j: Json) {
    && j.Obj?
    && var pending := Field(j.fields, PENDING, Arr([]));
    && pending.Arr? && AllIdentified(pending.items)
    && ReadableHistory(Field(j.fields, HISTORY, Obj(map[])))
  }

  /** A missing file is an empty queue; a corrupt one (None) is refused. */
  function LoadDoc(file: Option<Json>): Option<QueueState> {
    if file.None? then Some(EMPTY)
    else if !Readable(file.value) then None
    else
      var history := Field(file.value.fields, HISTORY, Obj(map[])).fields;
      Some(QueueState(
        ReadItems(Field(file.value.fields, PENDING, Arr([])).items),
        ReadHistory(history)))
  }

  /** The document: the pending items in order under one key, and under the other every item's
      decisions in order; each of them an object with its item's id. */
  lemma DocumentIs(s: QueueState)
    ensures SaveDoc(s).Obj? && SaveDoc(s).fields.Keys == {"pending", "history"}
    ensures var j := SaveDoc(s).fields["pending"];
            && j.Arr? && |j.items| == |s.pending|
            && forall i :: 0 <= i < |s.pending| ==>
                 j.items[i] == Obj(s.pending[i].rest["item_id" := Str(s.pending[i].itemId)])
    ensures var j := SaveDoc(s).fields["history"];
            && j.Obj? && j.fields.Keys == s.history.Keys
            && forall id <- s.history ::
                 && j.fields[id].Arr? && |j.fields[id].items| == |s.history[id]|
                 && forall i :: 0 <= i < |s.history[id]| ==>
                      j.fields[id].items[i] == Obj(s.history[id][i].rest["item_id" := Str(s.history[id][i].itemId)])
  {
  }

  predicate ListOfEntries(j: Json) {
    j.Arr? && forall e <- j.items :: e.Obj? && "item_id" in e.fields && e.fields["item_id"].Str?
  }

  /** Only a file that is there can be corrupt, and it is exactly where it is no object, or has
      pending items that are no list of entries, or decisions that are no lists of entries by
      item.  A key that is missing counts as empty. */
  lemma CorruptIff(file: Option<Json>)
    ensures LoadDoc(file).None? <==>
            && file.Some?
            && (|| !file.value.Obj?
                || ("pending" in file.value.fields && !ListOfEntries(file.value.fields["pending"]))
                || ("history" in file.value.fields
                    && (!file.value.fields["history"].Obj?
                        || exists id <- file.value.fields["history"].fields ::
                             !ListOfEntries(file.value.fields["history"].fields[id]))))
  {
  }

  lemma ItemReadsBack(i: ReviewItem)
    ensures Identified(DumpItem(i)) && ReadItem(DumpItem(i)) == i
  {
    assert i.rest[ITEM_ID := Str(i.itemId)] - {ITEM_ID} == i.rest;
  }

  lemma DecisionReadsBack(d: ReviewDecision)
    ensures Identified(DumpDecision(d)) && ReadDecision(DumpDecision(d)) == d
  {
    assert d.rest[ITEM_ID := Str(d.itemId)] - {ITEM_ID} == d.rest;
  }

  lemma DumpsAreIdentified(items: seq<ReviewItem>)
    ensures AllIdentified(DumpItems(items))
  {
    forall j <- DumpItems(items) ensures Identified(j) {
      var k :| 0 <= k < |items| && DumpItems(items)[k] == j;
      ItemReadsBack(items[k]);
    }
  }

  lemma {:induction false} ItemsReadBack(items: seq<ReviewItem>)
    requires Distinct(items)
    ensures AllIdentified(DumpItems(items)) && ReadItems(DumpItems(items)) == items
  {
    DumpsAreIdentified(items);
    if items != [] {
      var n := |items| - 1;
      ItemsReadBack(items[..n]);
      ItemReadsBack(items[n]);
      assert DumpItems(items)[..n] == DumpItems(items[..n]);
      NewIdGoesLast(items[..n], items[n]);
      assert items == items[..n] + [items[n]];
    }
  }

  lemma NewIdGoesLast(items: seq<ReviewItem>, item: ReviewItem)
    requires forall k :: 0 <= k < |items| ==> items[k].itemId != item.itemId
    ensures Put(items, item) == items + [item]
  {
  }

  lemma DecisionsReadBack(ds: seq<ReviewDecision>)
    ensures AllIdentified(DumpDecisions(ds)) && ReadDecisions(DumpDecisions(ds)) == ds
  {
    forall k | 0 <= k < |ds| ensures Identified(DumpDecisions(ds)[k]) && ReadDecision(DumpDecisions(ds)[k]) == ds[k] {
      DecisionReadsBack(ds[k]);
    }
  }

  lemma HistoryReadsBack(history: map<string, seq<ReviewDecision>>)
    ensures ReadableHistory(Obj(DumpHistory(history))) && ReadHistory(DumpHistory(history)) == history
  {
    forall id <- history
      ensures AllIdentified(DumpDecisions(history[id])) && ReadDecisions(DumpDecisions(history[id])) == history[id]
    {
      DecisionsReadBack(history[id]);
    }
    assert forall id <- DumpHistory(history) :: DumpHistory(history)[id].items == DumpDecisions(history[id]);
  }

  /** What is saved is what is loaded: items, their order, and every decision. */
  lemma LoadOfSave(s: QueueState)
    requires Distinct(s.pending)
    ensures LoadDoc(Some(SaveDoc(s))) == Some(s)
  {
    ItemsReadBack(s.pending);
    HistoryReadsBack(s.history);
    assert SaveDoc(s).fields[PENDING] == Arr(DumpItems(s.pending));
    assert SaveDoc(s).fields[HISTORY] == Obj(DumpHistory(s.history));
  }

  lemma {:induction false} ReadItemsDistinct(js: seq<Json>)
    requires AllIdentified(js)
    ensures Distinct(ReadItems(js))
  {
    if js != [] {
      ReadItemsDistinct(js[..|js| - 1]);
      PutKeepsDistinct(ReadItems(js[..|js| - 1]), ReadItem(js[|js| - 1]));
    }
  }

  /** Whatever document is read, no id is pending twice. */
  lemma LoadedIsDistinct(file: Option<Json>)
    requires LoadDoc(file).Some?
    ensures Distinct(LoadDoc(file).value.pending)
  {
    if file.Some? { ReadItemsDistinct(Field(file.value.fields, PENDING, Arr([])).items); }
  }

  /* ---------- the stores ---------- */

  /** What a store raises: an operating-system error or anything else. */
  datatype Fault = OsError | OtherFault

  function Classified(f: Fault): QueueError { if f == OsError then Retryable else Permanent }

  /** What an operation's load and its save raise, if they do. */
  datatype Faults = Faults(reading: Option<Fault>, writing: Option<Fault>) {
    predicate NoFault() { reading.None? && writing.None? }
  }

  /** A load: what was raised, or the snapshot read; a corrupt file raises by itself. */
  function Read(s: Option<QueueState>, fault: Option<Fault>): Result<QueueState, Fault> {
    if fault.Some? then Err(fault.value) else if s.None? then Err(OtherFault) else Ok(s.value)
  }

  class InMemoryReviewStore {
    var state: QueueState

    constructor ()
      ensures state == EMPTY
    {
      state := EMPTY;
    }

    method Load(fault: Option<Fault>) returns (r: Result<QueueState, Fault>)
      ensures r == Read(Some(state), fault)
    {
      r := if fault.Some? then Err(fault.value) else Ok(state);
    }

    method Save(s: QueueState, fault: Option<Fault>) returns (raised: Option<Fault>)
      modifies this
      ensures raised == fault && state == if fault.None? then s else old(state)
    {
      if fault.None? {
        state := s;
      }
      raised := fault;
    }
  }

  class JsonFileReviewStore {
    var file: Option<Json>

    constructor ()
      ensures file == None
    {
      file := None;
    }

    static method LoadItems(js: seq<Json>) returns (pending: seq<ReviewItem>)
      requires AllIdentified(js)
      ensures pending == ReadItems(js)
    {
      pending := [];
      for i := 0 to |js|
        invariant pending == ReadItems(js[..i])
      {
        assert js[..i + 1][..i] == js[..i];
        pending := Put(pending, ReadItem(js[i]));
      }
      assert js[..|js|] == js;
    }

    /** `fault` is what looking for the file or reading it raises. */
    method Load(fault: Option<Fault>) returns (r: Result<QueueState, Fault>)
      ensures r == Read(LoadDoc(file), fault)
    {
      if fault.Some? {
        return Err(fault.value);
      }
      if file.None? {
        return Ok(EMPTY);
      }
      if !Readable(file.value) {
        return Err(OtherFault);
      }
      var pending := LoadItems(Field(file.value.fields, PENDING, Arr([])).items);
      var raw := Field(file.value.fields, HISTORY, Obj(map[])).fields;
      r := Ok(QueueState(pending, ReadHistory(raw)));
    }

    /** Replaces the file as a whole, or raises and leaves it. */
    method Save(s: QueueState, fault: Option<Fault>) returns (raised: Option<Fault>)
      modifies this
      ensures raised == fault && file == if fault.None? then Some(SaveDoc(s)) else old(file)
    {
      if fault.None? {
        file := Some(SaveDoc(s));
      }
      raised := fault;
    }
  }

  /* ---------- the queue ---------- */

  /** One operation over each store, as load, change, save. */
  function MemoryStep(s: QueueState, op: Op, faults: Faults): QueueState {
    if faults.NoFault() then Applied(s, op) else s
  }

  function FileStep(file: Option<Json>, op: Op, faults: Faults): Option<Json> {
    var s := LoadDoc(file);
    if s.None? || !faults.NoFault() then file else Some(SaveDoc(Applied(s.value, op)))
  }

  datatype Store = InMemory(memory: InMemoryReviewStore) | JsonFile(document: JsonFileReviewStore)

  class PersistentReviewQueue {
    const store: Store

    constructor (store: Store)
      ensures this.store == store
    {
      this.store := store;
    }

    function Footprint(): set<object> {
      match store case InMemory(m) => {m} case JsonFile(f) => {f}
    }

    /** The snapshot a load would give. */
    ghost function Persisted(): Option<QueueState>
      reads Footprint()
    {
      match store case InMemory(m) => Some(m.state) case JsonFile(f) => LoadDoc(f.file)
    }

    ghost predicate Valid()
      reads Footprint()
    {
      store.InMemory? ==> Distinct(store.memory.state.pending)
    }

    /** Every exception of the store comes out as one that says whether to retry. */
    method Load(fault: Option<Fault>) returns (r: Result<QueueState, QueueError>)
      ensures r.Ok? <==> fault.None? && Persisted().Some?
      ensures r.Ok? ==> r.value == Persisted().value
      ensures r.Err? ==> r.error == if fault == Some(OsError) then Retryable else Permanent
    {
      var raw: Result<QueueState, Fault>;
      match store {
        case InMemory(m) => raw := m.Load(fault);
        case JsonFile(f) => raw := f.Load(fault);
      }
      r := match raw case Ok(s) => Ok(s) case Err(f) => Err(Classified(f));
    }

    /** Performs op.  If it returns normally the persisted snapshot is op applied to what it
        was; if it raises, nothing persisted has changed.  It raises what the load raised, and
        else what the save did; only an operating-system error is worth a retry. */
    method Perform(op: Op, faults: Faults) returns (r: Result<string, QueueError>)
      requires Valid()
      modifies Footprint()
      ensures Valid()
      ensures r.Ok? <==> old(Persisted()).Some? && faults.NoFault()
      ensures r.Ok? ==> r.value == OpId(op) && Persisted() == Some(Applied(old(Persisted()).value, op))
      ensures r.Err? ==> Persisted() == old(Persisted())
      ensures r.Err? ==>
                (r.error == Retryable <==>
                 || faults.reading == Some(OsError)
                 || (faults.reading.None? && old(Persisted()).Some? && faults.writing == Some(OsError)))
      ensures match store
              case InMemory(m) => m.state == MemoryStep(old(m.state), op, faults)
              case JsonFile(f) => f.file == FileStep(old(f.file), op, faults)
    {
      var loaded := Load(faults.reading);
      if loaded.Err? {
        return Err(loaded.error);
      }
      if store.JsonFile? { LoadedIsDistinct(store.document.file); }
      var next := Applied(loaded.value, op);
      AppliedKeepsDistinct(loaded.value, op);
      LoadOfSave(next);
      var raised: Option<Fault>;
      match store {
        case InMemory(m) => raised := m.Save(next, faults.writing);
        case JsonFile(f) => raised := f.Save(next, faults.writing);
      }
      r := if raised.Some? then Err(Classified(raised.value)) else Ok(OpId(op));
    }

    /** The first pending items in order: `limit` of them or all there are, and all but -limit
        of them for a negative limit. */
    method Pending(limit: int := 50, fault: Option<Fault> := None) returns (r: Result<seq<ReviewItem>, QueueError>)
      ensures r.Ok? <==> fault.None? && Persisted().Some?
      ensures r.Ok? ==> r.value <= Persisted().value.pending
      ensures r.Ok? && limit >= 0 ==>
                |r.value| == if limit < |Persisted().value.pending| then limit else |Persisted().value.pending|
      ensures r.Ok? && limit < 0 ==>
                |r.value| == if |Persisted().value.pending| > -limit then |Persisted().value.pending| + limit else 0
      ensures r.Err? ==> r.error == if fault == Some(OsError) then Retryable else Permanent
    {
      var loaded := Load(fault);
      r := match loaded case Err(e) => Err(e) case Ok(state) => Ok(Limited(state.pending, limit));
    }

    /** The item's decisions, none for an item never resolved. */
    method History(id: string, fault: Option<Fault> := None) returns (r: Result<seq<ReviewDecision>, QueueError>)
      ensures r.Ok? <==> fault.None? && Persisted().Some?
      ensures r.Ok? ==> r.value == HistoryOf(Persisted().value, id)
      ensures r.Err? ==> r.error == if fault == Some(OsError) then Retryable else Permanent
    {
      var loaded := Load(fault);
      r := match loaded case Err(e) => Err(e) case Ok(state) => Ok(HistoryOf(state, id));
    }
  }

  /* ---------- runs ---------- */

  /** An operation, and what its load and its save raised. */
  datatype Attempt = Attempt(op: Op, faults: Faults)

  function RunMemory(s: QueueState, run: seq<Attempt>): QueueState {
    if run == [] then s
    else MemoryStep(RunMemory(s, run[..|run| - 1]), run[|run| - 1].op, run[|run| - 1].faults)
  }

  function RunFile(file: Option<Json>, run: seq<Attempt>): Option<Json> {
    if run == [] then file
    else FileStep(RunFile(file, run[..|run| - 1]), run[|run| - 1].op, run[|run| - 1].faults)
  }

  lemma {:induction false} RunKeepsDistinct(s: QueueState, run: seq<Attempt>)
    requires Distinct(s.pending)
    ensures Distinct(RunMemory(s, run).pending)
  {
    if run != [] {
      RunKeepsDistinct(s, run[..|run| - 1]);
      AppliedKeepsDistinct(RunMemory(s, run[..|run| - 1]), run[|run| - 1].op);
    }
  }

  /** The file store behaves like the in-memory one: after any run, with whatever failures, a
      reopened file gives the snapshot the in-memory store would hold. */
  lemma {:induction false} FileSimulatesMemory(file: Option<Json>, run: seq<Attempt>)
    requires LoadDoc(file).Some?
    ensures LoadDoc(RunFile(file, run)) == Some(RunMemory(LoadDoc(file).value, run))
  {
    if run != [] {
      var before, last := run[..|run| - 1], run[|run| - 1];
      FileSimulatesMemory(file, before);
      LoadedIsDistinct(file);
      RunKeepsDistinct(LoadDoc(file).value, before);
      AppliedKeepsDistinct(RunMemory(LoadDoc(file).value, before), last.op);
      LoadOfSave(Applied(RunMemory(LoadDoc(file).value, before), last.op));
    }
  }

  /** The operations that returned normally. */
  function Successes(run: seq<Attempt>): seq<Op> {
    if run == [] then []
    else Successes(run[..|run| - 1]) + if run[|run| - 1].faults.NoFault() then [run[|run| - 1].op] else []
  }

  function Fold(s: QueueState, ops: seq<Op>): QueueState {
    if ops == [] then s else Applied(Fold(s, ops[..|ops| - 1]), ops[|ops| - 1])
  }

  /** What is persisted is the fold of the operations that returned normally; a failed one
      leaves no trace. */
  lemma {:induction false} PersistedIsFold(s: QueueState, run: seq<Attempt>)
    ensures RunMemory(s, run) == Fold(s, Successes(run))
  {
    if run != [] {
      PersistedIsFold(s, run[..|run| - 1]);
      var ops := Successes(run[..|run| - 1]);
      assert ops + [] == ops;
      assert (ops + [run[|run| - 1].op])[..|ops|] == ops;
    }
  }

  /* ---------- what a queue holds ---------- */

  function DecisionsFor(ops: seq<Op>, id: string): seq<ReviewDecision> {
    if ops == [] then []
    else
      var last := ops[|ops| - 1];
      DecisionsFor(ops[..|ops| - 1], id) + if last.Resolve? && last.decision.itemId == id then [last.decision] else []
  }

  /** An item's history is exactly the decisions made for it, in order: none is lost, replaced
      or repeated. */
  lemma {:induction false} HistoryIsEveryDecision(ops: seq<Op>, id: string)
    ensures HistoryOf(Fold(EMPTY, ops), id) == DecisionsFor(ops, id)
  {
    if ops != [] { HistoryIsEveryDecision(ops[..|ops| - 1], id); }
  }

  /** The item an id is pending with. */
  function PendingFor(s: QueueState, id: string): Option<ReviewItem> {
    var i := IndexOfId(s.pending, id);
    if i < |s.pending| then Some(s.pending[i]) else None
  }

  /** The item last enqueued under the id and not resolved since. */
  function LastEnqueued(ops: seq<Op>, id: string): Option<ReviewItem> {
    if ops == [] then None
    else if OpId(ops[|ops| - 1]) != id then LastEnqueued(ops[..|ops| - 1], id)
    else match ops[|ops| - 1] case Enqueue(item) => Some(item) case Resolve(_) => None
  }

  lemma IndexIs(pending: seq<ReviewItem>, id: string, k: nat)
    requires k <= |pending| && (k < |pending| ==> pending[k].itemId == id)
    requires forall i :: 0 <= i < k ==> pending[i].itemId != id
    ensures IndexOfId(pending, id) == k
  {
    var i := IndexOfId(pending, id);
    assert !(i < k) && !(k < i);
  }

  lemma PutFor(pending: seq<ReviewItem>, item: ReviewItem, id: string)
    ensures IndexOfId(Put(pending, item), id) ==
            if id == item.itemId || IndexOfId(pending, id) < |pending| then IndexOfId(pending, id)
            else |Put(pending, item)|
  {
    var i, after := IndexOfId(pending, id), Put(pending, item);
    IndexIs(after, id, if id == item.itemId || i < |pending| then i else |after|);
  }

  lemma PopFor(pending: seq<ReviewItem>, popped: string, id: string)
    requires Distinct(pending)
    ensures var i, j, after := IndexOfId(pending, popped), IndexOfId(pending, id), Pop(pending, popped);
            IndexOfId(after, id) == if id == popped || j == |pending| then |after| else if j < i then j else j - 1
  {
    var i, j, after := IndexOfId(pending, popped), IndexOfId(pending, id), Pop(pending, popped);
    IndexIs(after, id, if id == popped || j == |pending| then |after| else if j < i then j else j - 1);
  }

  lemma {:induction false} FoldKeepsDistinct(ops: seq<Op>)
    ensures Distinct(Fold(EMPTY, ops).pending)
  {
    if ops != [] {
      FoldKeepsDistinct(ops[..|ops| - 1]);
      AppliedKeepsDistinct(Fold(EMPTY, ops[..|ops| - 1]), ops[|ops| - 1]);
    }
  }

  lemma EnqueueFor(s: QueueState, item: ReviewItem, id: string)
    ensures PendingFor(Applied(s, Enqueue(item)), id) == if id == item.itemId then Some(item) else PendingFor(s, id)
  {
    PutFor(s.pending, item, id);
  }

  lemma ResolveFor(s: QueueState, d: ReviewDecision, id: string)
    requires Distinct(s.pending)
    ensures PendingFor(Applied(s, Resolve(d)), id) == if id == d.itemId then None else PendingFor(s, id)
  {
    PopFor(s.pending, d.itemId, id);
  }

  /** An id is pending exactly when it was enqueued and not resolved since, with the item it
      was last enqueued with. */
  lemma {:induction false} PendingIsLastEnqueued(ops: seq<Op>, id: string)
    ensures PendingFor(Fold(EMPTY, ops), id) == LastEnqueued(ops, id)
  {
    if ops != [] {
      PendingIsLastEnqueued(ops[..|ops| - 1], id);
      FoldKeepsDistinct(ops[..|ops| - 1]);
      match ops[|ops| - 1]
      case Enqueue(item) => EnqueueFor(Fold(EMPTY, ops[..|ops| - 1]), item, id);
      case Resolve(d) => ResolveFor(Fold(EMPTY, ops[..|ops| - 1]), d, id);
    }
  }

  /** When the id became pending: the step of its first enqueue since it last was not. */
  function PendingSince(ops: seq<Op>, id: string): nat
    requires LastEnqueued(ops, id).Some?
    ensures PendingSince(ops, id) < |ops|
  {
    var before := ops[..|ops| - 1];
    if LastEnqueued(before, id).Some? then PendingSince(before, id) else |ops| - 1
  }

  /** Pending ids have a step they became pending at. */
  lemma PendingHasSince(ops: seq<Op>, k: nat)
    requires k < |Fold(EMPTY, ops).pending|
    ensures LastEnqueued(ops, Fold(EMPTY, ops).pending[k].itemId).Some?
  {
    var pending := Fold(EMPTY, ops).pending;
    FoldKeepsDistinct(ops);
    IndexIs(pending, pending[k].itemId, k);
    PendingIsLastEnqueued(ops, pending[k].itemId);
  }

  /** What an operation does to the places of the pending ids. */
  function PlaceBefore(pending: seq<ReviewItem>, op: Op, i: nat): nat {
    match op
    case Enqueue(_) => i
    case Resolve(d) => if i < IndexOfId(pending, d.itemId) then i else i + 1
  }

  lemma PlacesMove(s: QueueState, op: Op, i: nat)
    requires i < |Applied(s, op).pending|
    ensures var a := PlaceBefore(s.pending, op, i);
            if a < |s.pending| then Applied(s, op).pending[i].itemId == s.pending[a].itemId
            else op.Enqueue? && a == |s.pending| && Applied(s, op).pending[i].itemId == op.item.itemId
                 && IndexOfId(s.pending, op.item.itemId) == |s.pending|
  {
  }

  lemma OldPlace(ops: seq<Op>, i: nat, a: nat)
    requires ops != [] && i < |Fold(EMPTY, ops).pending| && a < |Fold(EMPTY, ops[..|ops| - 1]).pending|
    requires Fold(EMPTY, ops).pending[i].itemId == Fold(EMPTY, ops[..|ops| - 1]).pending[a].itemId
    ensures var id, before := Fold(EMPTY, ops).pending[i].itemId, ops[..|ops| - 1];
            && LastEnqueued(ops, id).Some? && LastEnqueued(before, id).Some?
            && PendingSince(ops, id) == PendingSince(before, id)
  {
    PendingHasSince(ops, i);
    PendingHasSince(ops[..|ops| - 1], a);
  }

  lemma NewPlace(ops: seq<Op>, i: nat)
    requires ops != [] && i < |Fold(EMPTY, ops).pending|
    requires var id, before := Fold(EMPTY, ops).pending[i].itemId, Fold(EMPTY, ops[..|ops| - 1]).pending;
             IndexOfId(before, id) == |before|
    ensures var id := Fold(EMPTY, ops).pending[i].itemId;
            LastEnqueued(ops, id).Some? && PendingSince(ops, id) == |ops| - 1
  {
    PendingHasSince(ops, i);
    PendingIsLastEnqueued(ops[..|ops| - 1], Fold(EMPTY, ops).pending[i].itemId);
  }

  /** The pending order is the order in which the ids became pending: enqueuing an id again
      keeps its place, and enqueuing it after it was resolved goes to the end. */
  lemma {:induction false} PendingInOrderOfArrival(ops: seq<Op>, i: nat, j: nat)
    requires i < j < |Fold(EMPTY, ops).pending|
    ensures var pending := Fold(EMPTY, ops).pending;
            && LastEnqueued(ops, pending[i].itemId).Some? && LastEnqueued(ops, pending[j].itemId).Some?
            && PendingSince(ops, pending[i].itemId) < PendingSince(ops, pending[j].itemId)
  {
    var before := Fold(EMPTY, ops[..|ops| - 1]);
    var last := ops[|ops| - 1];
    var a, b := PlaceBefore(before.pending, last, i), PlaceBefore(before.pending, last, j);
    PlacesMove(before, last, i);
    PlacesMove(before, last, j);
    assert a < b;
    OldPlace(ops, i, a);
    if b < |before.pending| {
      OldPlace(ops, j, b);
      PendingInOrderOfArrival(ops[..|ops| - 1], a, b);
    } else {
      NewPlace(ops, j);
    }
  }
}
