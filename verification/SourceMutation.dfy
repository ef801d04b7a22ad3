/**
 Identity through ingest and native mutation (`scripts/benchmark_targets/openkb.py`):
 the content hash of every live source and its evidence id stay a one-to-one pairing.
 */
module SourceMutation {
  import opened Wrappers

  /** SHA-256 of a rendered source, taken to be injective. */
  datatype ContentHash = Sha256(rendered: string)

  datatype Failure = DuplicateContent | NotJobScoped | UnknownTarget | RemoveFailed | RemoveRetained
                   | NoReplacementText | ReplacementCollides | AddFailed | NoNativeIdentity | Unsupported
                   | IncompleteRecord | UnexpectedSources | OmittedSources

  /** A registry entry, as far as its `doc_name` matters. */
  datatype Metadata = Malformed | Nameless | OddlyNamed(text: string) | Named(name: string)

  type Registry = map<ContentHash, Metadata>

  datatype Item = Item(jobId: string, evidenceId: string, text: string)

  datatype Record = Record(fileHash: ContentHash, docName: string, sourcePath: (string, string))

  /** The code points that Python takes for white space. */
  predicate IsSpace(c: char) {
    var code := c as int;
    || 0x09 <= code <= 0x0D || 0x1C <= code <= 0x20 || code in {0x85, 0xA0, 0x1680}
    || 0x2000 <= code <= 0x200A || code in {0x2028, 0x2029, 0x202F, 0x205F, 0x3000}
  }

  function RStrip(text: string): string {
    if text != [] && IsSpace(text[|text| - 1]) then RStrip(text[..|text| - 1]) else text
  }

  function Render(text: string): string { RStrip(text) + "\n" }

  function HashOf(text: string): ContentHash { Sha256(Render(text)) }

  ghost predicate Injective<K, V>(m: map<K, V>) {
    forall a, b :: a in m && b in m && m[a] == m[b] ==> a == b
  }

  // ------------------------------------------------------------------ ingest

  /** Equal content never belongs to two evidence ids. */
  ghost predicate Distinguishable(items: seq<Item>) {
    forall i, j :: 0 <= i < |items| && 0 <= j < |items| && HashOf(items[i].text) == HashOf(items[j].text) ==>
        items[i].evidenceId == items[j].evidenceId
  }

  method MaterializeSources(items: seq<Item>) returns (r: Result<map<ContentHash, string>, Failure>)
    ensures r.Ok? <==> Distinguishable(items)
    ensures r.Ok? ==> forall i :: 0 <= i < |items| ==>
              HashOf(items[i].text) in r.value && r.value[HashOf(items[i].text)] == items[i].evidenceId
    ensures r.Ok? ==> forall h :: h in r.value ==>
              exists i :: 0 <= i < |items| && HashOf(items[i].text) == h && items[i].evidenceId == r.value[h]
  {
    var hashes: map<ContentHash, string> := map[];
    for i := 0 to |items|
      invariant forall j :: 0 <= j < i ==>
                  HashOf(items[j].text) in hashes && hashes[HashOf(items[j].text)] == items[j].evidenceId
      invariant forall h :: h in hashes ==>
                  exists j :: 0 <= j < i && HashOf(items[j].text) == h && items[j].evidenceId == hashes[h]
    {
      var sourceHash := HashOf(items[i].text);
      if sourceHash in hashes && hashes[sourceHash] != items[i].evidenceId {
        return Err(DuplicateContent);
      }
      hashes := hashes[sourceHash := items[i].evidenceId];
    }
    r := Ok(hashes);
  }

  method SourcePaths(items: seq<Item>) returns (r: Result<map<string, (string, string)>, Failure>)
    ensures r.Ok? <==> forall i, j :: 0 <= i < j < |items| ==> items[i].evidenceId != items[j].evidenceId
    ensures r.Ok? ==> forall e :: e in r.value <==> exists i :: 0 <= i < |items| && items[i].evidenceId == e
  {
    var paths: map<string, (string, string)> := map[];
    for i := 0 to |items|
      invariant forall j, k :: 0 <= j < k < i ==> items[j].evidenceId != items[k].evidenceId
      invariant forall e :: e in paths <==> exists j :: 0 <= j < i && items[j].evidenceId == e
    {
      if items[i].evidenceId in paths {
        return Err(NotJobScoped);
      }
      paths := paths[items[i].evidenceId := (items[i].jobId, items[i].evidenceId)];
    }
    r := Ok(paths);
  }

  method NativeDocumentRecords(registry: Registry, expected: map<ContentHash, string>,
          paths: map<string, (string, string)>)
    returns (r: Result<map<string, Record>, Failure>)
    ensures r.Ok? <==> forall h :: h in expected ==> h in registry && registry[h].Named? && expected[h] in paths
    ensures r.Ok? ==> r.value.Keys == expected.Values
    ensures r.Ok? ==> forall e :: e in r.value ==>
              && r.value[e].fileHash in expected && expected[r.value[e].fileHash] == e
              && r.value[e].fileHash in registry && registry[r.value[e].fileHash] == Named(r.value[e].docName)
              && e in paths && r.value[e].sourcePath == paths[e]
  {
    var records: map<string, Record> := map[];
    var left := expected.Keys;
    while left != {}
      invariant left <= expected.Keys
      invariant forall h :: h in expected && h !in left ==>
                  h in registry && registry[h].Named? && expected[h] in paths && expected[h] in records
      invariant forall e :: e in records ==>
                  && records[e].fileHash in expected && expected[records[e].fileHash] == e
                  && records[e].fileHash in registry && registry[records[e].fileHash] == Named(records[e].docName)
                  && e in paths && records[e].sourcePath == paths[e]
      decreases left
    {
      var fileHash :| fileHash in left;
      left := left - {fileHash};
      var evidenceId := expected[fileHash];
      if fileHash !in registry || !registry[fileHash].Named? || evidenceId !in paths {
        return Err(IncompleteRecord);
      }
      records := records[evidenceId := Record(fileHash, registry[fileHash].name, paths[evidenceId])];
    }
    r := Ok(records);
  }

  // -------------------------------------------------------- the registry check

  function DocName(metadata: Metadata): Option<string> {
    match metadata
    case Named(name) => if name == "" then None else Some(name)
    case OddlyNamed(text) => Some(text)
    case _ => None
  }

  /** The three pages of one document, by their path under the wiki root. */
  datatype Page = Summary(name: string) | SourceMarkdown(name: string) | SourceJson(name: string)

  function PathOf(page: Page): string {
    match page
    case Summary(name) => "summaries/" + name + ".md"
    case SourceMarkdown(name) => "sources/" + name + ".md"
    case SourceJson(name) => "sources/" + name + ".json"
  }

  /** Two pages never share a path, so a map keyed by paths is a map keyed by pages. */
  lemma PathsIdentifyPages(p: Page, q: Page)
    requires PathOf(p) == PathOf(q)
    ensures p == q
  {
    var x := PathOf(p);
    var start := if p.Summary? then 10 else 8;
    var tail := if p.SourceJson? then 5 else 3;
    assert x[1] == (if p.Summary? then 'u' else 'o') && x[1] == (if q.Summary? then 'u' else 'o');
    assert x[|x| - 1] == (if p.SourceJson? then 'n' else 'd') && x[|x| - 1] == (if q.SourceJson? then 'n' else 'd');
    assert x[start..|x| - tail] == p.name;
    assert x[start..|x| - tail] == q.name;
  }

  predicate Accepts(registry: Registry, expected: map<ContentHash, string>) {
    registry.Keys == expected.Keys && forall h :: h in expected ==> DocName(registry[h]).Some?
  }

  predicate HasName(registry: Registry, h: ContentHash, name: string) {
    h in registry && DocName(registry[h]) == Some(name)
  }

  /** All pages of a document name stand for the evidence of its owner, one hash with that name. */
  ghost predicate OwnedPages(registry: Registry, expected: map<ContentHash, string>, hashes: set<ContentHash>,
                             owner: map<string, ContentHash>, mapping: map<Page, string>)
  {
    && (forall name :: name in owner ==>
          owner[name] in hashes && owner[name] in expected && HasName(registry, owner[name], name))
    && (forall h, name :: h in hashes && HasName(registry, h, name) ==> name in owner)
    && (forall page :: page in mapping <==> page.name in owner)
    && (forall page :: page in mapping ==> mapping[page] == expected[owner[page.name]])
  }

  ghost predicate IsDocumentMap(registry: Registry, expected: map<ContentHash, string>, mapping: map<Page, string>) {
    exists owner :: OwnedPages(registry, expected, expected.Keys, owner, mapping)
  }

  /** The check that closes ingest and mutation: it accepts exactly the expected sources. */
  method NativeDocumentMap(registry: Registry, expected: map<ContentHash, string>)
    returns (r: Result<map<Page, string>, Failure>)
    ensures r.Ok? <==> Accepts(registry, expected)
    ensures r.Ok? <==>
              && registry.Keys == expected.Keys
              && forall h :: h in registry ==>
                   registry[h].OddlyNamed? || (registry[h].Named? && registry[h].name != "")
    ensures r == Err(UnexpectedSources) <==> exists h :: h in registry && h !in expected
    ensures r.Err? ==> r.error == UnexpectedSources || r.error == OmittedSources
    ensures r.Ok? ==> IsDocumentMap(registry, expected, r.value)
  {
    if registry.Keys - expected.Keys != {} {
      var extra :| extra in registry.Keys - expected.Keys;
      return Err(UnexpectedSources);
    }
    var mapping: map<Page, string> := map[];
    var missing, left := expected.Keys, expected.Keys;
    ghost var owner: map<string, ContentHash> := map[];
    while left != {}
      invariant left <= missing <= expected.Keys
      invariant forall h :: h in expected.Keys - left ==>
                  (h !in missing <==> h in registry && DocName(registry[h]).Some?)
      invariant OwnedPages(registry, expected, expected.Keys - missing, owner, mapping)
      decreases left
    {
      var fileHash :| fileHash in left;
      left := left - {fileHash};
      if fileHash in registry && DocName(registry[fileHash]).Some? {
        var name := DocName(registry[fileHash]).value;
        var id := expected[fileHash];
        mapping := mapping[Summary(name) := id][SourceMarkdown(name) := id][SourceJson(name) := id];
        missing := missing - {fileHash};
        owner := owner[name := fileHash];
      }
    }
    if missing != {} {
      var omitted :| omitted in missing;
      return Err(OmittedSources);
    }
    assert expected.Keys - missing == expected.Keys;
    r := Ok(mapping);
  }

  ghost predicate DistinctNames(registry: Registry, expected: map<ContentHash, string>) {
    forall g, h ::
      g in expected && h in expected && g in registry && h in registry && DocName(registry[g]) == DocName(registry[h])
      ==> g == h
  }

  lemma OwnsItsName(registry: Registry, expected: map<ContentHash, string>, owner: map<string, ContentHash>,
          mapping: map<Page, string>, h: ContentHash)
    requires Accepts(registry, expected) && Injective(expected) && h in expected
    requires OwnedPages(registry, expected, expected.Keys, owner, mapping) && mapping.Values == expected.Values
    ensures DocName(registry[h]).value in owner && owner[DocName(registry[h]).value] == h
  {
    assert expected[h] in mapping.Values;
    var page :| page in mapping && mapping[page] == expected[h];
    assert owner[page.name] == h;
  }

  lemma NamedPageTraces(registry: Registry, expected: map<ContentHash, string>, owner: map<string, ContentHash>,
          mapping: map<Page, string>, h: ContentHash)
    requires Accepts(registry, expected) && DistinctNames(registry, expected) && h in expected
    requires OwnedPages(registry, expected, expected.Keys, owner, mapping)
    ensures expected[h] in mapping.Values
  {
    var page := Summary(DocName(registry[h]).value);
    assert HasName(registry, h, page.name);
    assert page in mapping && owner[page.name] == h && mapping[page] == expected[h];
  }

  /**
   With one evidence id per hash, the accepted map can be traced back to every live
   document exactly when no two of them were given the same native document name.
   */
  lemma EveryDocumentTraceable(registry: Registry, expected: map<ContentHash, string>, mapping: map<Page, string>)
    requires Accepts(registry, expected) && IsDocumentMap(registry, expected, mapping) && Injective(expected)
    ensures mapping.Values == expected.Values <==> DistinctNames(registry, expected)
  {
    var owner :| OwnedPages(registry, expected, expected.Keys, owner, mapping);
    if mapping.Values == expected.Values {
      forall h | h in expected
        ensures DocName(registry[h]).value in owner && owner[DocName(registry[h]).value] == h
      {
        OwnsItsName(registry, expected, owner, mapping, h);
      }
    }
    if DistinctNames(registry, expected) {
      forall e | e in expected.Values
        ensures e in mapping.Values
      {
        var h :| h in expected && expected[h] == e;
        NamedPageTraces(registry, expected, owner, mapping, h);
      }
    }
  }

  /** Two sources registered under one name are both accepted, and just one of them can be traced. */
  lemma SharedNameLosesEvidence(g: ContentHash, h: ContentHash, name: string, e: string, f: string,
          mapping: map<Page, string>)
    requires g != h && e != f && name != ""
    requires IsDocumentMap(map[g := Named(name), h := Named(name)], map[g := e, h := f], mapping)
    ensures Accepts(map[g := Named(name), h := Named(name)], map[g := e, h := f])
    ensures mapping.Values == {e} || mapping.Values == {f}
  {
    hide HashOf;
    var registry, expected := map[g := Named(name), h := Named(name)], map[g := e, h := f];
    var owner :| OwnedPages(registry, expected, expected.Keys, owner, mapping);
    assert HasName(registry, g, name);
    assert Summary(name).name == name && Summary(name) in mapping;
    assert forall page :: page in mapping ==> HasName(registry, owner[page.name], page.name);
    assert forall page :: page in mapping ==> mapping[page] == expected[owner[name]];
    assert mapping.Values == {mapping[Summary(name)]};
  }

  // ---------------------------------------------------------------- mutation

  datatype Requested = Update | Delete | Other

  datatype Operation = Operation(requested: Requested, evidenceId: string, text: Option<string>)

  /** What the native tool does while one operation is applied. */
  datatype Native = Native(removes: bool, absentAfter: bool, adds: bool, registry: Registry)

  datatype NativeType = NativeDelete | ReindexUpdate

  datatype Receipt = Receipt(requested: Requested, native: NativeType)

  datatype Store = Store(current: map<ContentHash, string>, records: map<string, Record>)

  /** The outcome of one operation; a failure may leave the store half changed. */
  datatype Applied = Done(store: Store, receipt: Receipt) | Raised(store: Store, failure: Failure)

  function Apply(store: Store, op: Operation, native: Native): Applied {
    if op.evidenceId !in store.records then Raised(store, UnknownTarget)
    else if !native.removes then Raised(store, RemoveFailed)
    else if !native.absentAfter then Raised(store, RemoveRetained)
    else
      var record := store.records[op.evidenceId];
      var popped := store.(current := store.current - {record.fileHash});
      match op.requested
      case Update =>
        if op.text.None? || op.text.value == "" then Raised(popped, NoReplacementText)
        else
          var newHash := HashOf(op.text.value);
          if newHash in popped.current && popped.current[newHash] != op.evidenceId then
            Raised(popped, ReplacementCollides)
          else if !native.adds then Raised(popped, AddFailed)
          else if newHash !in native.registry || !native.registry[newHash].Named? then Raised(popped, NoNativeIdentity)
          else
            var replaced := Record(newHash, native.registry[newHash].name, record.sourcePath);
            Done(Store(popped.current[newHash := op.evidenceId], popped.records[op.evidenceId := replaced]),
                 Receipt(Update, ReindexUpdate))
      case Delete => Done(popped.(records := popped.records - {op.evidenceId}), Receipt(Delete, NativeDelete))
      case Other => Raised(popped, Unsupported)
  }

  /** The two maps are inverse to each other, so each is one-to-one. */
  ghost predicate Inverse(store: Store) {
    && (forall h :: h in store.current ==>
          store.current[h] in store.records && store.records[store.current[h]].fileHash == h)
    && (forall e :: e in store.records ==>
          store.records[e].fileHash in store.current && store.current[store.records[e].fileHash] == e)
  }

  /** What an operation means: a plain store from evidence id to content. */
  function Content(store: Store): map<string, ContentHash> {
    map e | e in store.records :: store.records[e].fileHash
  }

  function Meaning(content: map<string, ContentHash>, op: Operation): map<string, ContentHash> {
    match op.requested
    case Update => if op.text.Some? then content[op.evidenceId := HashOf(op.text.value)] else content
    case Delete => content - {op.evidenceId}
    case Other => content
  }

  lemma ReplaceKeepsInverse(store: Store, e: string, record: Record)
    requires Inverse(store) && e in store.records
    requires var popped := store.current - {store.records[e].fileHash};
             record.fileHash in popped ==> popped[record.fileHash] == e
    ensures var popped := store.current - {store.records[e].fileHash};
            var after := Store(popped[record.fileHash := e], store.records[e := record]);
            Inverse(after) && Content(after) == Content(store)[e := record.fileHash]
  {}

  lemma DropKeepsInverse(store: Store, e: string)
    requires Inverse(store) && e in store.records
    ensures var after := Store(store.current - {store.records[e].fileHash}, store.records - {e});
            Inverse(after) && Content(after) == Content(store) - {e}
  {}

  lemma ApplyKeepsIdentity(store: Store, op: Operation, native: Native)
    requires Inverse(store) && Apply(store, op, native).Done?
    ensures Inverse(Apply(store, op, native).store)
    ensures Content(Apply(store, op, native).store) == Meaning(Content(store), op)
    ensures op.evidenceId in store.records
  {
    hide Inverse, Content;
    match op.requested
    case Update =>
      var h := HashOf(op.text.value);
      var replaced := Record(h, native.registry[h].name, store.records[op.evidenceId].sourcePath);
      ReplaceKeepsInverse(store, op.evidenceId, replaced);
    case Delete => DropKeepsInverse(store, op.evidenceId);
    case Other =>
  }

  /** An operation fails on a live target with new text exactly when another live source already has that content. */
  lemma UpdateCollidesIff(store: Store, op: Operation, native: Native)
    requires Inverse(store) && op.evidenceId in store.records && native.removes && native.absentAfter
    requires op.requested == Update && op.text.Some? && op.text.value != ""
    ensures Apply(store, op, native).Raised? && Apply(store, op, native).failure == ReplacementCollides <==>
            exists e :: e in store.records && e != op.evidenceId && Content(store)[e] == HashOf(op.text.value)
  {
    var h := HashOf(op.text.value);
    var own := store.records[op.evidenceId].fileHash;
    if h in store.current && h != own {
      assert Content(store)[store.current[h]] == h;
    }
  }

  /**
   When an operation completes, what stops every other one, and what each leaves, told from
   the request and the native tool alone. An update gives its target the new content under
   the name registered for it, in the file it was in; a delete forgets it. Nothing else
   changes. One that raises after the removal has lost the pairing of its target's content.
   */
  lemma OperationMeans(store: Store, op: Operation, native: Native)
    requires Inverse(store)
    ensures var applied := Apply(store, op, native);
            var removed := op.evidenceId in store.records && native.removes && native.absentAfter;
            var worded := op.requested == Update && op.text.Some? && op.text.value != "";
            && (applied.Done? <==>
                  && removed
                  && (|| op.requested == Delete
                      || (&& worded && native.adds
                          && (forall e :: e in store.records && e != op.evidenceId ==>
                                store.records[e].fileHash != HashOf(op.text.value))
                          && HashOf(op.text.value) in native.registry
                          && native.registry[HashOf(op.text.value)].Named?)))
            && (Fails(applied, UnknownTarget) <==> op.evidenceId !in store.records)
            && (Fails(applied, RemoveFailed) <==> op.evidenceId in store.records && !native.removes)
            && (Fails(applied, RemoveRetained) <==>
                  op.evidenceId in store.records && native.removes && !native.absentAfter)
            && (Fails(applied, NoReplacementText) <==> removed && op.requested == Update && !worded)
            && (Fails(applied, Unsupported) <==> removed && op.requested == Other)
            && (Fails(applied, AddFailed) ==> removed && worded && !native.adds)
            && (Fails(applied, NoNativeIdentity) ==> removed && worded && native.adds)
            && (applied.Done? && op.requested == Update ==>
                  var record, h := store.records[op.evidenceId], HashOf(op.text.value);
                  && applied.receipt == Receipt(Update, ReindexUpdate)
                  && applied.store.records
                     == store.records[op.evidenceId := Record(h, native.registry[h].name, record.sourcePath)]
                  && applied.store.current == (store.current - {record.fileHash})[h := op.evidenceId])
            && (applied.Done? && op.requested != Update ==>
                  && applied.receipt == Receipt(Delete, NativeDelete)
                  && applied.store.records == store.records - {op.evidenceId}
                  && applied.store.current == store.current - {store.records[op.evidenceId].fileHash})
            && (applied.Raised? ==>
                  && applied.store.records == store.records
                  && applied.store.current
                     == if removed then store.current - {store.records[op.evidenceId].fileHash} else store.current)
  {
    if op.evidenceId in store.records && op.text.Some? {
      var h := HashOf(op.text.value);
      assert h in store.current ==> store.current[h] in store.records;
    }
  }

  predicate Fails(applied: Applied, failure: Failure) { applied.Raised? && applied.failure == failure }

  /** Rendering drops the white space at the end of a text, and nothing else, and ends it with one line feed. */
  lemma {:induction false} RenderMeans(text: string) returns (n: nat)
    ensures n <= |text| && Render(text) == text[..n] + "\n"
    ensures n > 0 ==> !IsSpace(text[n - 1])
    ensures forall i :: n <= i < |text| ==> IsSpace(text[i])
  {
    n := |text|;
    if text != [] && IsSpace(text[|text| - 1]) {
      n := RenderMeans(text[..|text| - 1]);
      assert text[..|text| - 1][..n] == text[..n];
    } else {
      assert text[..|text|] == text;
    }
  }

  // ------------------------------------------------------- jobs of operations

  datatype Job = Job(id: string, steps: seq<(Operation, Native)>)

  datatype Run = Finished(store: Store, receipts: seq<Receipt>) | Failed(failure: Failure)

  function ApplySteps(store: Store, steps: seq<(Operation, Native)>, receipts: seq<Receipt>): Run
    decreases |steps|
  {
    if steps == [] then Finished(store, receipts)
    else
      match Apply(store, steps[0].0, steps[0].1)
      case Raised(_, failure) => Failed(failure)
      case Done(next, receipt) => ApplySteps(next, steps[1..], receipts + [receipt])
  }

  function AllSteps(jobs: seq<Job>): seq<(Operation, Native)> {
    if jobs == [] then [] else jobs[0].steps + AllSteps(jobs[1..])
  }

  function FinalMeaning(content: map<string, ContentHash>, steps: seq<(Operation, Native)>): map<string, ContentHash>
    decreases |steps|
  {
    if steps == [] then content else FinalMeaning(Meaning(content, steps[0].0), steps[1..])
  }

  lemma {:induction false} ApplyStepsConcat(store: Store, a: seq<(Operation, Native)>, b: seq<(Operation, Native)>,
          receipts: seq<Receipt>)
    ensures ApplySteps(store, a + b, receipts) ==
            match ApplySteps(store, a, receipts)
            case Failed(failure) => Failed(failure)
            case Finished(next, more) => ApplySteps(next, b, more)
    decreases |a|
  {
    if a == [] {
      assert a + b == b;
    } else {
      assert (a + b)[1..] == a[1..] + b;
      match Apply(store, a[0].0, a[0].1)
      case Raised(_, _) =>
      case Done(next, receipt) => ApplyStepsConcat(next, a[1..], b, receipts + [receipt]);
    }
  }

  lemma {:induction false} ApplyStepsPrefix(store: Store, steps: seq<(Operation, Native)>, past: seq<Receipt>,
          receipts: seq<Receipt>)
    ensures ApplySteps(store, steps, past + receipts) ==
            match ApplySteps(store, steps, receipts)
            case Failed(failure) => Failed(failure)
            case Finished(next, more) => Finished(next, past + more)
    decreases |steps|
  {
    if steps != [] {
      match Apply(store, steps[0].0, steps[0].1)
      case Raised(_, _) =>
      case Done(next, receipt) =>
        assert past + receipts + [receipt] == past + (receipts + [receipt]);
        ApplyStepsPrefix(next, steps[1..], past, receipts + [receipt]);
    }
  }

  /** The steps of one job, then those of the jobs after it. */
  lemma OneJob(store: Store, jobs: seq<Job>, i: nat, done: seq<Receipt>)
    requires i < |jobs|
    ensures var own := ApplySteps(store, jobs[i].steps, []);
            ApplySteps(store, AllSteps(jobs[i..]), done)
            == if own.Failed? then own else ApplySteps(own.store, AllSteps(jobs[i + 1..]), done + own.receipts)
  {
    assert jobs[i..][1..] == jobs[i + 1..] && done + [] == done;
    ApplyStepsConcat(store, jobs[i].steps, AllSteps(jobs[i + 1..]), done);
    ApplyStepsPrefix(store, jobs[i].steps, done, []);
  }

  /** One receipt per operation, in order, naming the native operation that stood for it. */
  ghost predicate ReceiptsMatch(steps: seq<(Operation, Native)>, receipts: seq<Receipt>) {
    && |receipts| == |steps|
    && forall i :: 0 <= i < |steps| ==>
         var requested := steps[i].0.requested;
         receipts[i] == Receipt(requested, if requested == Update then ReindexUpdate else NativeDelete)
  }

  lemma {:induction false} ReceiptsOfSteps(store: Store, steps: seq<(Operation, Native)>,
          past: seq<(Operation, Native)>, receipts: seq<Receipt>)
    requires ReceiptsMatch(past, receipts)
    ensures var r := ApplySteps(store, steps, receipts);
            r.Finished? ==> ReceiptsMatch(past + steps, r.receipts)
    decreases |steps|
  {
    if steps == [] {
      assert past + steps == past;
    } else {
      match Apply(store, steps[0].0, steps[0].1)
      case Raised(_, _) =>
      case Done(next, receipt) =>
        assert (past + [steps[0]]) + steps[1..] == past + steps;
        ReceiptsOfSteps(next, steps[1..], past + [steps[0]], receipts + [receipt]);
    }
  }

  lemma {:induction false} StepsKeepIdentity(store: Store, steps: seq<(Operation, Native)>, receipts: seq<Receipt>)
    requires Inverse(store)
    ensures var r := ApplySteps(store, steps, receipts);
            r.Finished? ==> Inverse(r.store) && Content(r.store) == FinalMeaning(Content(store), steps)
    decreases |steps|
  {
    if steps != [] {
      match Apply(store, steps[0].0, steps[0].1)
      case Raised(_, _) =>
      case Done(next, receipt) =>
        ApplyKeepsIdentity(store, steps[0].0, steps[0].1);
        StepsKeepIdentity(next, steps[1..], receipts + [receipt]);
    }
  }

  /** `current_hashes` and `source_records` while the jobs are applied. */
  class Mutator {
    var store: Store

    constructor (store: Store)
      ensures this.store == store
    {
      this.store := store;
    }

    method ApplyOperation(op: Operation, native: Native) returns (r: Result<Receipt, Failure>)
      modifies this
      ensures match Apply(old(store), op, native)
              case Done(next, receipt) => store == next && r == Ok(receipt)
              case Raised(left, failure) => store == left && r == Err(failure)
    {
      if op.evidenceId !in store.records {
        return Err(UnknownTarget);
      }
      var record := store.records[op.evidenceId];
      if !native.removes {
        return Err(RemoveFailed);
      }
      if !native.absentAfter {
        return Err(RemoveRetained);
      }
      store := store.(current := store.current - {record.fileHash});
      var nativeType := NativeDelete;
      match op.requested {
        case Update =>
          if op.text.None? || op.text.value == "" {
            return Err(NoReplacementText);
          }
          var newHash := HashOf(op.text.value);
          if newHash in store.current && store.current[newHash] != op.evidenceId {
            return Err(ReplacementCollides);
          }
          if !native.adds {
            return Err(AddFailed);
          }
          if newHash !in native.registry || !native.registry[newHash].Named? {
            return Err(NoNativeIdentity);
          }
          store := store.(current := store.current[newHash := op.evidenceId]);
          var replaced := Record(newHash, native.registry[newHash].name, record.sourcePath);
          store := store.(records := store.records[op.evidenceId := replaced]);
          nativeType := ReindexUpdate;
        case Delete =>
          store := store.(records := store.records - {op.evidenceId});
        case Other =>
          return Err(Unsupported);
      }
      r := Ok(Receipt(op.requested, nativeType));
    }

    method ApplyJob(steps: seq<(Operation, Native)>) returns (r: Result<seq<Receipt>, Failure>)
      modifies this
      ensures match ApplySteps(old(store), steps, [])
              case Finished(next, receipts) => store == next && r == Ok(receipts)
              case Failed(failure) => r == Err(failure)
      ensures r.Ok? ==> ReceiptsMatch(steps, r.value)
    {
      ReceiptsOfSteps(store, steps, [], []);
      assert [] + steps == steps;
      var receipts: seq<Receipt> := [];
      for k := 0 to |steps|
        invariant ApplySteps(old(store), steps, []) == ApplySteps(store, steps[k..], receipts)
      {
        var applied := ApplyOperation(steps[k].0, steps[k].1);
        if applied.Err? {
          return Err(applied.error);
        }
        receipts := receipts + [applied.value];
      }
      r := Ok(receipts);
    }

    /** All operations of all jobs, then the closing registry check. */
    method ApplyOperations(jobs: seq<Job>, registry: Registry) returns (r: Result<seq<(string, seq<Receipt>)>, Failure>)
      modifies this
      ensures r.Ok? <==>
              && ApplySteps(old(store), AllSteps(jobs), []).Finished?
              && Accepts(registry, ApplySteps(old(store), AllSteps(jobs), []).store.current)
      ensures r.Ok? ==> store == ApplySteps(old(store), AllSteps(jobs), []).store
      ensures r.Ok? ==> |r.value| == |jobs| && forall i :: 0 <= i < |jobs| ==>
                r.value[i].0 == jobs[i].id && ReceiptsMatch(jobs[i].steps, r.value[i].1)
    {
      ghost var done: seq<Receipt> := [];
      var receipts: seq<(string, seq<Receipt>)> := [];
      for i := 0 to |jobs|
        invariant ApplySteps(old(store), AllSteps(jobs), []) == ApplySteps(store, AllSteps(jobs[i..]), done)
        invariant |receipts| == i
        invariant forall k :: 0 <= k < i ==> receipts[k].0 == jobs[k].id && ReceiptsMatch(jobs[k].steps, receipts[k].1)
      {
        OneJob(store, jobs, i, done);
        var applied := ApplyJob(jobs[i].steps);
        if applied.Err? {
          return Err(applied.error);
        }
        done := done + applied.value;
        receipts := receipts + [(jobs[i].id, applied.value)];
      }
      var closing := NativeDocumentMap(registry, store.current);
      r := if closing.Ok? then Ok(receipts) else Err(closing.error);
    }
  }

  /** What ingest hands to the mutation phase: inverse maps, one evidence id per item. */
  lemma IngestEstablishesIdentity(items: seq<Item>, hashes: map<ContentHash, string>, records: map<string, Record>)
    requires Distinguishable(items)
    requires forall i, j :: 0 <= i < j < |items| ==> items[i].evidenceId != items[j].evidenceId
    requires forall h :: h in hashes ==>
               exists i :: 0 <= i < |items| && HashOf(items[i].text) == h && items[i].evidenceId == hashes[h]
    requires forall i :: 0 <= i < |items| ==>
               HashOf(items[i].text) in hashes && hashes[HashOf(items[i].text)] == items[i].evidenceId
    requires records.Keys == hashes.Values
    requires forall e :: e in records ==> records[e].fileHash in hashes && hashes[records[e].fileHash] == e
    ensures Inverse(Store(hashes, records))
    ensures forall i :: 0 <= i < |items| ==>
              items[i].evidenceId in records && records[items[i].evidenceId].fileHash == HashOf(items[i].text)
  {
    forall h | h in hashes
      ensures hashes[h] in records && records[hashes[h]].fileHash == h
    {
      var e := hashes[h];
      assert e in hashes.Values;
      var i :| 0 <= i < |items| && HashOf(items[i].text) == h && items[i].evidenceId == e;
      var g := records[e].fileHash;
      var j :| 0 <= j < |items| && HashOf(items[j].text) == g && items[j].evidenceId == e;
      assert i == j;
    }
  }

  /**
   Through any jobs that do not raise, the maps stay inverse, the store means exactly
   what the operations say, and the closing check accepts a registry if and only if it
   lists the surviving contents, each under a usable document name.
   */
  lemma MutationKeepsIdentity(store: Store, jobs: seq<Job>, registry: Registry)
    requires Inverse(store) && ApplySteps(store, AllSteps(jobs), []).Finished?
    ensures var final := ApplySteps(store, AllSteps(jobs), []).store;
            && Inverse(final)
            && Content(final) == FinalMeaning(Content(store), AllSteps(jobs))
            && (Accepts(registry, final.current) <==>
                  && registry.Keys == FinalMeaning(Content(store), AllSteps(jobs)).Values
                  && forall h :: h in registry ==> DocName(registry[h]).Some?)
  {
    StepsKeepIdentity(store, AllSteps(jobs), []);
    var final := ApplySteps(store, AllSteps(jobs), []).store;
    forall h
      ensures h in final.current <==> h in Content(final).Values
    {
      if h in final.current { assert Content(final)[final.current[h]] == h; }
    }
  }
}
