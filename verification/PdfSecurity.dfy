/** The bounded walk over a PDF's object graph. */
module PdfSecurity {
  import opened Rubric

  type ObjId = nat

  /** A dictionary entry: its key, how `get` shows its value, and what indexing fetches. `None` is a raised error. */
  datatype Entry = Entry(key: string, shown: Option<string>, value: Option<ObjId>)

  /** A parsed object; the target of a failed or empty dereference is `None`. */
  datatype Obj =
    | Indirect(target: Option<ObjId>)
    | Dict(entries: seq<Entry>)
    | Array(items: seq<ObjId>)
    | Null
    | Leaf

  datatype Reason = Attachment | ActiveContent | EmbeddedObject | ExternalLink | Malformed | UnsafeStructure | Encrypted

  const MAX_PAGES := 2000
  const MAX_DEPTH := 50
  const MAX_OBJECTS := 10000

  const EMBEDDED_KEYS := {"/EmbeddedFiles", "/EmbeddedFile", "/Filespec", "/EF"}
  const ACTIVE_CONTENT_KEYS := {"/JavaScript", "/JS", "/OpenAction", "/AA"}
  const MEDIA_KEYS := {"/RichMedia", "/3D", "/Movie", "/Sound", "/Launch"}
  const EXTERNAL_ACTION_KEYS := {"/URI", "/GoToR", "/SubmitForm", "/ImportData"}

  function CheckKey(key: string): Option<Reason> {
    if key in EMBEDDED_KEYS then Some(Attachment)
    else if key in ACTIVE_CONTENT_KEYS then Some(ActiveContent)
    else if key in MEDIA_KEYS then Some(EmbeddedObject)
    else if key in EXTERNAL_ACTION_KEYS then Some(ExternalLink)
    else None
  }

  /** Which key stands for which reason. */
  lemma KeyReasons(key: string)
    ensures CheckKey(key) == Some(Attachment) <==> key in {"/EmbeddedFiles", "/EmbeddedFile", "/Filespec", "/EF"}
    ensures CheckKey(key) == Some(ActiveContent) <==> key in {"/JavaScript", "/JS", "/OpenAction", "/AA"}
    ensures CheckKey(key) == Some(EmbeddedObject) <==> key in {"/RichMedia", "/3D", "/Movie", "/Sound", "/Launch"}
    ensures CheckKey(key) == Some(ExternalLink) <==> key in {"/URI", "/GoToR", "/SubmitForm", "/ImportData"}
    ensures CheckKey(key).Some? ==> CheckKey(key).value in {Attachment, ActiveContent, EmbeddedObject, ExternalLink}
  {
  }

  /** The keys no accepted document may show. */
  predicate Forbidden(key: string) {
    key in {"/EmbeddedFiles", "/EmbeddedFile", "/Filespec", "/EF", "/JavaScript", "/JS", "/OpenAction", "/AA",
            "/RichMedia", "/3D", "/Movie", "/Sound", "/Launch", "/URI", "/GoToR", "/SubmitForm", "/ImportData"}
  }

  type Heap = map<ObjId, Obj>

  /** Every object mentioned exists. Dereferencing may yield another reference. */
  ghost predicate WellFormed(heap: Heap) {
    forall n :: n in heap ==> Successors(heap[n]) <= heap.Keys
  }

  /** The objects one step away. */
  function Successors(o: Obj): set<ObjId> {
    match o
    case Indirect(target) => if target.Some? then {target.value} else {}
    case Dict(entries) => set e | e in entries && e.value.Some? :: e.value.value
    case Array(items) => set i | i in items
    case _ => {}
  }

  /** Why a dictionary entry is rejected, if it is. */
  function EntryReason(e: Entry): Option<Reason> {
    if CheckKey(e.key).Some? then CheckKey(e.key)
    else if e.key == "/Subtype" && e.shown.None? then Some(Malformed)
    else if e.key == "/Subtype" && e.shown.value == "/FileAttachment" then Some(Attachment)
    else if e.value.None? then Some(Malformed)
    else None
  }

  /** The object itself gives cause for rejection with `reason`. */
  ghost predicate Defective(heap: Heap, n: ObjId, reason: Reason)
    requires n in heap
  {
    match heap[n]
    case Indirect(target) => reason == Malformed && (target.None? || (target.value in heap && heap[target.value].Null?))
    case Dict(entries) => exists e :: e in entries && EntryReason(e) == Some(reason)
    case _ => false
  }

  ghost predicate Clean(heap: Heap, n: ObjId)
    requires n in heap
  {
    forall reason :: !Defective(heap, n, reason)
  }

  /** A chain of objects from a root. */
  ghost predicate IsPath(heap: Heap, roots: set<ObjId>, path: seq<ObjId>) {
    && path != [] && path[0] in roots
    && (forall i :: 0 <= i < |path| ==> path[i] in heap)
    && forall i :: 0 <= i < |path| - 1 ==> path[i + 1] in Successors(heap[path[i]])
  }

  function Last(path: seq<ObjId>): ObjId
    requires path != []
  {
    path[|path| - 1]
  }

  /** The dictionaries and arrays a chain passes through; dereferencing costs no depth. */
  ghost function Depth(heap: Heap, path: seq<ObjId>): nat
    requires path != [] && forall i :: 0 <= i < |path| ==> path[i] in heap
  {
    if |path| == 1 then 0
    else
      var front := path[..|path| - 1];
      Depth(heap, front) + if heap[Last(front)].Indirect? then 0 else 1
  }

  lemma ExtendPath(heap: Heap, roots: set<ObjId>, path: seq<ObjId>, m: ObjId)
    requires IsPath(heap, roots, path) && m in heap && m in Successors(heap[Last(path)])
    ensures IsPath(heap, roots, path + [m]) && Last(path + [m]) == m
    ensures Depth(heap, path + [m]) == Depth(heap, path) + if heap[Last(path)].Indirect? then 0 else 1
  {
    assert (path + [m])[..|path|] == path;
  }

  /** A rejection is for a defect on some chain, or for a chain too deep, or for too many objects. */
  ghost predicate Justified(heap: Heap, roots: set<ObjId>, count: nat, reason: Reason) {
    || (exists path :: IsPath(heap, roots, path) && Defective(heap, Last(path), reason))
    || (reason == UnsafeStructure && (count > 10000 || exists path :: IsPath(heap, roots, path) && Depth(heap, path) > 50))
  }

  ghost predicate Reachable(heap: Heap, roots: set<ObjId>, n: ObjId) {
    exists path :: IsPath(heap, roots, path) && Last(path) == n
  }

  /** On a chain through at most 50 dictionaries and arrays. */
  ghost predicate Near(heap: Heap, roots: set<ObjId>, n: ObjId) {
    exists path :: IsPath(heap, roots, path) && Last(path) == n && Depth(heap, path) <= 50
  }

  // ----- what the walk computes

  /** The visited set, the objects counted and the calls made. */
  datatype State = State(visited: set<ObjId>, count: nat, calls: nat)

  datatype Visit = Visit(reason: Option<Reason>, state: State)

  /** One call. A reference is followed once: when its target is a reference too, that one is marked visited and left. */
  ghost function InspectAt(heap: Heap, obj: ObjId, depth: nat, s: State): Visit
    requires WellFormed(heap) && obj in heap && depth <= MAX_DEPTH + 1
    decreases MAX_DEPTH + 1 - depth, 2, 0
  {
    var called := s.(calls := s.calls + 1);
    if depth > MAX_DEPTH then Visit(Some(UnsafeStructure), called)
    else
      var counted := called.(count := s.count + 1);
      if counted.count > MAX_OBJECTS then Visit(Some(UnsafeStructure), counted)
      else if obj in s.visited then Visit(None, counted)
      else
        var marked := counted.(visited := s.visited + {obj});
        if !heap[obj].Indirect? then ChildrenAt(heap, obj, depth, marked)
        else
          var target := heap[obj].target;
          if target.None? then Visit(Some(Malformed), marked)
          else
            assert target.value in Successors(heap[obj]);
            if heap[target.value].Null? then Visit(Some(Malformed), marked)
            else if target.value in marked.visited then Visit(None, marked)
            else ChildrenAt(heap, target.value, depth, marked.(visited := marked.visited + {target.value}))
  }

  ghost function ChildrenAt(heap: Heap, obj: ObjId, depth: nat, s: State): Visit
    requires WellFormed(heap) && obj in heap && depth <= MAX_DEPTH
    decreases MAX_DEPTH + 1 - depth, 1, 0
  {
    match heap[obj]
    case Dict(entries) => EntriesAt(heap, obj, 0, depth, s)
    case Array(items) => ItemsAt(heap, obj, 0, depth, s)
    case _ => Visit(None, s)
  }

  /** The entries of a dictionary from `k` on, up to the first rejection. */
  ghost function EntriesAt(heap: Heap, obj: ObjId, k: nat, depth: nat, s: State): Visit
    requires WellFormed(heap) && obj in heap && heap[obj].Dict? && k <= |heap[obj].entries| && depth <= MAX_DEPTH
    decreases MAX_DEPTH + 1 - depth, 0, |heap[obj].entries| - k
  {
    if k == |heap[obj].entries| then Visit(None, s)
    else
      var e := heap[obj].entries[k];
      if EntryReason(e).Some? then Visit(EntryReason(e), s)
      else
        assert e in heap[obj].entries && e.value.value in Successors(heap[obj]);
        var v := InspectAt(heap, e.value.value, depth + 1, s);
        if v.reason.Some? then v else EntriesAt(heap, obj, k + 1, depth, v.state)
  }

  ghost function ItemsAt(heap: Heap, obj: ObjId, k: nat, depth: nat, s: State): Visit
    requires WellFormed(heap) && obj in heap && heap[obj].Array? && k <= |heap[obj].items| && depth <= MAX_DEPTH
    decreases MAX_DEPTH + 1 - depth, 0, |heap[obj].items| - k
  {
    if k == |heap[obj].items| then Visit(None, s)
    else
      assert heap[obj].items[k] in Successors(heap[obj]);
      var v := InspectAt(heap, heap[obj].items[k], depth + 1, s);
      if v.reason.Some? then v else ItemsAt(heap, obj, k + 1, depth, v.state)
  }

  // ----- what a walk from one object establishes

  /** The object was found clean and everything one step away was visited. */
  ghost predicate Explored(heap: Heap, n: ObjId, visited: set<ObjId>)
    requires n in heap
  {
    Clean(heap, n) && Successors(heap[n]) <= visited
  }

  /** The object is a reference that was met as the target of a reference. */
  ghost predicate Shadowed(heap: Heap, n: ObjId, visited: set<ObjId>)
    requires n in heap
  {
    heap[n].Indirect? && exists m :: m in visited && m in heap && heap[m] == Indirect(Some(n))
  }

  /** What was visited beyond `before` is near, and explored unless shadowed. */
  ghost predicate Grown(heap: Heap, roots: set<ObjId>, before: set<ObjId>, after: set<ObjId>) {
    && before <= after
    && forall n :: n in after - before ==> n in heap && Near(heap, roots, n) && (Explored(heap, n, after) || Shadowed(heap, n, after))
  }

  /** No rejection so far. */
  ghost predicate Running(s: State) { s.calls == s.count <= MAX_OBJECTS }

  ghost predicate Sound(heap: Heap, roots: set<ObjId>, before: State, v: Visit) {
    && (v.reason.None? ==> Running(v.state) && Grown(heap, roots, before.visited, v.state.visited))
    && (v.reason.Some? ==> Justified(heap, roots, v.state.count, v.reason.value) && v.state.count <= v.state.calls <= MAX_OBJECTS + 1)
  }

  lemma GrownTwice(heap: Heap, roots: set<ObjId>, a: set<ObjId>, b: set<ObjId>, c: set<ObjId>)
    requires Grown(heap, roots, a, b) && Grown(heap, roots, b, c)
    ensures Grown(heap, roots, a, c)
  {
    hide Near, Clean;
  }

  lemma {:induction false} InspectSound(heap: Heap, roots: set<ObjId>, obj: ObjId, depth: nat, s: State, path: seq<ObjId>)
    requires WellFormed(heap) && Running(s) && depth <= MAX_DEPTH + 1
    requires IsPath(heap, roots, path) && Last(path) == obj && Depth(heap, path) == depth
    ensures Sound(heap, roots, s, InspectAt(heap, obj, depth, s))
    ensures InspectAt(heap, obj, depth, s).reason.None? ==> obj in InspectAt(heap, obj, depth, s).state.visited
    decreases MAX_DEPTH + 1 - depth, 2, 0
  {
    if depth <= MAX_DEPTH && s.count < MAX_OBJECTS && obj !in s.visited {
      hide EntryReason;
      var marked := State(s.visited + {obj}, s.count + 1, s.calls + 1);
      if !heap[obj].Indirect? {
        ChildrenSound(heap, roots, obj, depth, marked, path);
        assert Near(heap, roots, obj);
      } else if heap[obj].target.None? {
        assert Defective(heap, Last(path), Malformed);
      } else {
        var target := heap[obj].target.value;
        assert target in Successors(heap[obj]);
        if heap[target].Null? {
          assert Defective(heap, Last(path), Malformed);
        } else {
          FollowedSound(heap, roots, obj, target, depth, marked, path);
        }
      }
    }
  }

  /** A reference is explored once its target is marked; the target is explored too, unless it is a reference. */
  lemma {:induction false} FollowedSound(heap: Heap, roots: set<ObjId>, obj: ObjId, target: ObjId, depth: nat, s: State, path: seq<ObjId>)
    requires WellFormed(heap) && Running(s) && depth <= MAX_DEPTH && obj in s.visited
    requires IsPath(heap, roots, path) && Last(path) == obj && Depth(heap, path) == depth
    requires heap[obj] == Indirect(Some(target)) && target in heap && !heap[target].Null?
    ensures var v := if target in s.visited then Visit(None, s) else ChildrenAt(heap, target, depth, s.(visited := s.visited + {target}));
      && Sound(heap, roots, s, v)
      && (v.reason.None? ==> Grown(heap, roots, s.visited - {obj}, v.state.visited))
    decreases MAX_DEPTH + 1 - depth, 1, 1
  {
    hide EntryReason;
    assert Clean(heap, obj) && Near(heap, roots, obj);
    if target !in s.visited {
      assert target in Successors(heap[obj]);
      ExtendPath(heap, roots, path, target);
      assert Near(heap, roots, target);
      ChildrenSound(heap, roots, target, depth, s.(visited := s.visited + {target}), path + [target]);
    }
  }

  /** The children of a direct object: it is explored unless something is rejected. A reference has none. */
  lemma {:induction false} ChildrenSound(heap: Heap, roots: set<ObjId>, obj: ObjId, depth: nat, s: State, path: seq<ObjId>)
    requires WellFormed(heap) && Running(s) && depth <= MAX_DEPTH
    requires IsPath(heap, roots, path) && Last(path) == obj && Depth(heap, path) == depth
    ensures Sound(heap, roots, s, ChildrenAt(heap, obj, depth, s))
    ensures ChildrenAt(heap, obj, depth, s).reason.None? && !heap[obj].Indirect? ==>
      Explored(heap, obj, ChildrenAt(heap, obj, depth, s).state.visited)
    decreases MAX_DEPTH + 1 - depth, 1, 0
  {
    if heap[obj].Dict? {
      EntriesSound(heap, roots, obj, 0, depth, s, path);
    } else if heap[obj].Array? {
      ItemsSound(heap, roots, obj, 0, depth, s, path);
    }
  }

  lemma {:induction false} EntriesSound(heap: Heap, roots: set<ObjId>, obj: ObjId, k: nat, depth: nat, s: State, path: seq<ObjId>)
    requires WellFormed(heap) && Running(s) && depth <= MAX_DEPTH
    requires IsPath(heap, roots, path) && Last(path) == obj && Depth(heap, path) == depth
    requires heap[obj].Dict? && k <= |heap[obj].entries|
    ensures Sound(heap, roots, s, EntriesAt(heap, obj, k, depth, s))
    ensures EntriesAt(heap, obj, k, depth, s).reason.None? ==> forall i :: k <= i < |heap[obj].entries| ==>
      var e := heap[obj].entries[i];
      EntryReason(e).None? && e.value.value in EntriesAt(heap, obj, k, depth, s).state.visited
    decreases MAX_DEPTH + 1 - depth, 0, |heap[obj].entries| - k
  {
    if k < |heap[obj].entries| {
      var e := heap[obj].entries[k];
      assert e in heap[obj].entries;
      if EntryReason(e).Some? {
        assert Defective(heap, Last(path), EntryReason(e).value);
      } else {
        assert e.value.value in Successors(heap[obj]);
        ExtendPath(heap, roots, path, e.value.value);
        InspectSound(heap, roots, e.value.value, depth + 1, s, path + [e.value.value]);
        var v := InspectAt(heap, e.value.value, depth + 1, s);
        if v.reason.None? {
          EntriesSound(heap, roots, obj, k + 1, depth, v.state, path);
          var w := EntriesAt(heap, obj, k + 1, depth, v.state);
          if w.reason.None? {
            GrownTwice(heap, roots, s.visited, v.state.visited, w.state.visited);
          }
        }
      }
    }
  }

  lemma {:induction false} ItemsSound(heap: Heap, roots: set<ObjId>, obj: ObjId, k: nat, depth: nat, s: State, path: seq<ObjId>)
    requires WellFormed(heap) && Running(s) && depth <= MAX_DEPTH
    requires IsPath(heap, roots, path) && Last(path) == obj && Depth(heap, path) == depth
    requires heap[obj].Array? && k <= |heap[obj].items|
    ensures Sound(heap, roots, s, ItemsAt(heap, obj, k, depth, s))
    ensures ItemsAt(heap, obj, k, depth, s).reason.None? ==>
      forall i :: k <= i < |heap[obj].items| ==> heap[obj].items[i] in ItemsAt(heap, obj, k, depth, s).state.visited
    decreases MAX_DEPTH + 1 - depth, 0, |heap[obj].items| - k
  {
    if k < |heap[obj].items| {
      var item := heap[obj].items[k];
      assert item in Successors(heap[obj]);
      ExtendPath(heap, roots, path, item);
      InspectSound(heap, roots, item, depth + 1, s, path + [item]);
      var v := InspectAt(heap, item, depth + 1, s);
      if v.reason.None? {
        ItemsSound(heap, roots, obj, k + 1, depth, v.state, path);
        var w := ItemsAt(heap, obj, k + 1, depth, v.state);
        if w.reason.None? {
          GrownTwice(heap, roots, s.visited, v.state.visited, w.state.visited);
        }
      }
    }
  }

  /** A chain of the given depth ends at the object. */
  ghost predicate Leads(heap: Heap, roots: set<ObjId>, path: seq<ObjId>, obj: ObjId, depth: nat) {
    IsPath(heap, roots, path) && Last(path) == obj && Depth(heap, path) == depth
  }

  /** Whatever chain led to the object: without rejection it and everything new was visited soundly. */
  ghost predicate CallSound(heap: Heap, obj: ObjId, depth: nat, before: State, v: Visit) {
    Running(before) ==> forall roots, path :: Leads(heap, roots, path, obj, depth) ==>
      Sound(heap, roots, before, v) && (v.reason.None? ==> obj in v.state.visited)
  }

  ghost predicate ChildrenCallSound(heap: Heap, obj: ObjId, depth: nat, before: State, v: Visit)
    requires obj in heap
  {
    Running(before) ==> forall roots, path :: Leads(heap, roots, path, obj, depth) ==>
      Sound(heap, roots, before, v) && (v.reason.None? && !heap[obj].Indirect? ==> Explored(heap, obj, v.state.visited))
  }

  lemma CallIsSound(heap: Heap, obj: ObjId, depth: nat, s: State)
    requires WellFormed(heap) && obj in heap && depth <= MAX_DEPTH + 1
    ensures CallSound(heap, obj, depth, s, InspectAt(heap, obj, depth, s))
  {
    hide InspectAt, Sound;
    if Running(s) {
      forall roots, path | Leads(heap, roots, path, obj, depth)
        ensures Sound(heap, roots, s, InspectAt(heap, obj, depth, s))
        ensures InspectAt(heap, obj, depth, s).reason.None? ==> obj in InspectAt(heap, obj, depth, s).state.visited
      {
        InspectSound(heap, roots, obj, depth, s, path);
      }
    }
  }

  lemma ChildrenCallIsSound(heap: Heap, obj: ObjId, depth: nat, s: State)
    requires WellFormed(heap) && obj in heap && depth <= MAX_DEPTH
    ensures ChildrenCallSound(heap, obj, depth, s, ChildrenAt(heap, obj, depth, s))
  {
    hide ChildrenAt, Sound, Explored;
    if Running(s) {
      forall roots, path | Leads(heap, roots, path, obj, depth)
        ensures Sound(heap, roots, s, ChildrenAt(heap, obj, depth, s))
        ensures ChildrenAt(heap, obj, depth, s).reason.None? && !heap[obj].Indirect? ==>
          Explored(heap, obj, ChildrenAt(heap, obj, depth, s).state.visited)
      {
        ChildrenSound(heap, roots, obj, depth, s, path);
      }
    }
  }

  // ----- the walk as it is made

  class Inspector {
    const heap: Heap
    var visited: set<ObjId>
    var count: nat
    ghost var calls: nat

    ghost function View(): State
      reads this
    {
      State(visited, count, calls)
    }

    constructor (heap: Heap)
      ensures this.heap == heap && View() == State({}, 0, 0)
    {
      this.heap := heap;
      visited, count, calls := {}, 0, 0;
    }

    /** Along any chain to the object: without rejection everything new is reachable and explored or shadowed,
        and a rejection has a cause. */
    method Inspect(obj: ObjId, depth: nat) returns (r: Option<Reason>)
      requires WellFormed(heap) && obj in heap && depth <= MAX_DEPTH + 1
      modifies this
      ensures Visit(r, View()) == InspectAt(heap, obj, depth, old(View()))
      ensures CallSound(heap, obj, depth, old(View()), Visit(r, View()))
      decreases MAX_DEPTH + 1 - depth, 1
    {
      hide EntryReason, CallSound;
      CallIsSound(heap, obj, depth, View());
      calls := calls + 1;
      if depth > MAX_DEPTH {
        return Some(UnsafeStructure);
      }
      count := count + 1;
      if count > MAX_OBJECTS {
        return Some(UnsafeStructure);
      }
      if obj in visited {
        return None;
      }
      visited := visited + {obj};
      var target := obj;
      if heap[obj].Indirect? {
        if heap[obj].target.None? {
          return Some(Malformed);
        }
        target := heap[obj].target.value;
        assert target in Successors(heap[obj]);
        if heap[target].Null? {
          return Some(Malformed);
        }
        if target in visited {
          return None;
        }
        visited := visited + {target};
      }
      r := InspectChildren(target, depth);
    }

    /** The entries of a dictionary or the items of an array, each one level deeper: without rejection a direct
        object is clean and all its successors were visited. */
    method InspectChildren(obj: ObjId, depth: nat) returns (r: Option<Reason>)
      requires WellFormed(heap) && obj in heap && depth <= MAX_DEPTH
      modifies this
      ensures Visit(r, View()) == ChildrenAt(heap, obj, depth, old(View()))
      ensures ChildrenCallSound(heap, obj, depth, old(View()), Visit(r, View()))
      decreases MAX_DEPTH + 1 - depth, 0
    {
      hide InspectAt, ChildrenCallSound;
      ChildrenCallIsSound(heap, obj, depth, View());
      if heap[obj].Dict? {
        var entries := heap[obj].entries;
        for i := 0 to |entries|
          invariant EntriesAt(heap, obj, 0, depth, old(View())) == EntriesAt(heap, obj, i, depth, View())
        {
          var e := entries[i];
          assert e in entries;
          var reason := CheckKey(e.key);
          if reason.Some? {
            return reason;
          }
          if e.key == "/Subtype" {
            if e.shown.None? {
              return Some(Malformed);
            }
            if e.shown.value == "/FileAttachment" {
              return Some(Attachment);
            }
          }
          if e.value.None? {
            return Some(Malformed);
          }
          assert e.value.value in Successors(heap[obj]);
          r := Inspect(e.value.value, depth + 1);
          if r.Some? {
            return;
          }
        }
      } else if heap[obj].Array? {
        var items := heap[obj].items;
        for i := 0 to |items|
          invariant ItemsAt(heap, obj, 0, depth, old(View())) == ItemsAt(heap, obj, i, depth, View())
        {
          assert items[i] in Successors(heap[obj]);
          r := Inspect(items[i], depth + 1);
          if r.Some? {
            return;
          }
        }
      }
      return None;
    }
  }

  // ----- the document

  /** What the reader exposes; a `None` access raised. A missing catalog is `Some(None)`. */
  datatype Document = Document(
    encrypted: bool, heap: Heap, pages: Option<seq<Option<ObjId>>>, catalog: Option<Option<ObjId>>)

  ghost predicate DocumentWellFormed(d: Document) {
    && WellFormed(d.heap)
    && (d.pages.Some? ==> forall p :: p in d.pages.value && p.Some? ==> p.value in d.heap)
    && (d.catalog.Some? && d.catalog.value.Some? ==> d.catalog.value.value in d.heap)
  }

  function FirstPages(pages: seq<Option<ObjId>>): seq<Option<ObjId>> {
    if |pages| <= MAX_PAGES then pages else pages[..MAX_PAGES]
  }

  /** The dictionaries among some pages. */
  function PageRoots(heap: Heap, pages: seq<Option<ObjId>>): set<ObjId> {
    set p | p in pages && p.Some? && p.value in heap && heap[p.value].Dict? :: p.value
  }

  /** The catalog, when it is a non-empty dictionary. */
  function CatalogRoots(d: Document): set<ObjId> {
    if d.catalog.Some? && d.catalog.value.Some? && d.catalog.value.value in d.heap
       && d.heap[d.catalog.value.value].Dict? && d.heap[d.catalog.value.value].entries != []
    then {d.catalog.value.value} else {}
  }

  /** Where the walk starts. */
  function Roots(d: Document): set<ObjId> {
    (if d.pages.Some? then PageRoots(d.heap, FirstPages(d.pages.value)) else {}) + CatalogRoots(d)
  }

  /** The walk starts from the dictionaries among the first 2000 pages and from a catalog with entries. */
  lemma RootsMeaning(d: Document, n: ObjId)
    ensures n in Roots(d) <==>
      && n in d.heap && d.heap[n].Dict?
      && (|| (d.pages.Some? && exists i :: 0 <= i < |d.pages.value| && i < 2000 && d.pages.value[i] == Some(n))
          || (d.catalog == Some(Some(n)) && d.heap[n].entries != []))
  {
    if d.pages.Some? {
      var first := FirstPages(d.pages.value);
      if Some(n) in first {
        var i :| 0 <= i < |first| && first[i] == Some(n);
        assert d.pages.value[i] == Some(n);
      }
      if i :| 0 <= i < |d.pages.value| && i < 2000 && d.pages.value[i] == Some(n) {
        assert first[i] == Some(n);
      }
    }
  }

  /** Some access to a page or the catalog raised. */
  predicate Unreadable(d: Document) {
    || d.pages.None? || d.catalog.None?
    || (exists p :: p in FirstPages(d.pages.value) && p.None?)
  }

  /** The pages from `k` on; anything but a dictionary is passed over. */
  ghost function PagesAt(d: Document, k: nat, s: State): Visit
    requires DocumentWellFormed(d) && d.pages.Some? && k <= |FirstPages(d.pages.value)|
    decreases |FirstPages(d.pages.value)| - k
  {
    var pages := FirstPages(d.pages.value);
    if k == |pages| then Visit(None, s)
    else if pages[k].None? then Visit(Some(Malformed), s)
    else
      assert pages[k] in d.pages.value;
      var v := if d.heap[pages[k].value].Dict? then InspectAt(d.heap, pages[k].value, 0, s) else Visit(None, s);
      if v.reason.Some? then v else PagesAt(d, k + 1, v.state)
  }

  /** The whole walk: the pages, then the catalog. */
  ghost function WalkOf(d: Document): Visit
    requires DocumentWellFormed(d)
  {
    if d.pages.None? then Visit(Some(Malformed), State({}, 0, 0))
    else
      var v := PagesAt(d, 0, State({}, 0, 0));
      if v.reason.Some? then v
      else if d.catalog.None? then Visit(Some(Malformed), v.state)
      else if CatalogRoots(d) == {} then v
      else InspectAt(d.heap, d.catalog.value.value, 0, v.state)
  }

  /** The walk finds nothing to reject. */
  ghost predicate Passes(d: Document)
    requires DocumentWellFormed(d)
  {
    WalkOf(d).reason.None?
  }

  lemma {:induction false} PagesSound(d: Document, k: nat, s: State)
    requires DocumentWellFormed(d) && d.pages.Some? && k <= |FirstPages(d.pages.value)| && Running(s)
    ensures var v := PagesAt(d, k, s);
      if v.reason == Some(Malformed) && Unreadable(d) then v.state.count <= v.state.calls <= MAX_OBJECTS + 1
      else Sound(d.heap, Roots(d), s, v)
    ensures PagesAt(d, k, s).reason.None? ==> forall i :: k <= i < |FirstPages(d.pages.value)| ==>
      var p := FirstPages(d.pages.value)[i];
      p.Some? && (d.heap[p.value].Dict? ==> p.value in PagesAt(d, k, s).state.visited)
    decreases |FirstPages(d.pages.value)| - k
  {
    hide InspectAt, Justified;
    var pages := FirstPages(d.pages.value);
    if k < |pages| {
      assert pages[k] in pages && pages[k] in d.pages.value;
      if pages[k].Some? {
        var page := pages[k].value;
        var v := if d.heap[page].Dict? then InspectAt(d.heap, page, 0, s) else Visit(None, s);
        if d.heap[page].Dict? {
          assert IsPath(d.heap, Roots(d), [page]);
          InspectSound(d.heap, Roots(d), page, 0, s, [page]);
        }
        if v.reason.None? {
          PagesSound(d, k + 1, v.state);
          var w := PagesAt(d, k + 1, v.state);
          if w.reason.None? {
            GrownTwice(d.heap, Roots(d), s.visited, v.state.visited, w.state.visited);
          }
        }
      }
    }
  }

  /** A passing walk visited every root, and explored what it visited except references met behind references;
      a rejection has a cause; at most 10001 calls are made on any graph. */
  lemma WalkSound(d: Document)
    requires DocumentWellFormed(d)
    ensures var v := WalkOf(d);
      && v.state.count <= v.state.calls <= 10001
      && (v.reason.None? ==> !Unreadable(d) && Roots(d) <= v.state.visited && Grown(d.heap, Roots(d), {}, v.state.visited))
      && (v.reason.Some? ==> (v.reason == Some(Malformed) && Unreadable(d)) || Justified(d.heap, Roots(d), v.state.count, v.reason.value))
  {
    hide InspectAt, Justified;
    if d.pages.Some? {
      PagesSound(d, 0, State({}, 0, 0));
      var v := PagesAt(d, 0, State({}, 0, 0));
      if v.reason.None? && d.catalog.Some? && CatalogRoots(d) != {} {
        var root := d.catalog.value.value;
        assert IsPath(d.heap, Roots(d), [root]);
        InspectSound(d.heap, Roots(d), root, 0, v.state, [root]);
        var w := InspectAt(d.heap, root, 0, v.state);
        if w.reason.None? {
          GrownTwice(d.heap, Roots(d), {}, v.state.visited, w.state.visited);
        }
      }
    }
  }

  // ----- what passing guarantees

  /** Every object reachable from the pages and the catalog is free of cause for rejection. */
  ghost predicate AllReachableClean(d: Document) {
    forall path :: IsPath(d.heap, Roots(d), path) ==> Clean(d.heap, Last(path))
  }

  /** No reachable reference leads to a reference. */
  ghost predicate NoDoubleReference(d: Document) {
    forall n, m :: n in d.heap && m in d.heap && d.heap[n] == Indirect(Some(m)) && Reachable(d.heap, Roots(d), n) ==>
      !d.heap[m].Indirect?
  }

  /** The visited references that were never followed. */
  ghost function Unfollowed(heap: Heap, visited: set<ObjId>): set<ObjId> {
    set n | n in visited && n in heap && heap[n].Indirect? && !Explored(heap, n, visited)
  }

  ghost function LeftBehind(d: Document): set<ObjId>
    requires DocumentWellFormed(d)
  {
    Unfollowed(d.heap, WalkOf(d).state.visited)
  }

  /** A chain from the roots stays among visited objects, or passes through a reference that was not followed. */
  lemma {:induction false} ChainSplits(heap: Heap, roots: set<ObjId>, visited: set<ObjId>, path: seq<ObjId>) returns (k: nat)
    requires roots <= visited && Grown(heap, roots, {}, visited) && IsPath(heap, roots, path)
    ensures k < |path|
    ensures path[k] in Unfollowed(heap, visited) || (k == |path| - 1 && path[k] in visited && Clean(heap, path[k]))
  {
    k := 0;
    while k < |path| - 1 && path[k] !in Unfollowed(heap, visited)
      invariant k < |path| && path[k] in visited
    {
      assert path[k + 1] in Successors(heap[path[k]]);
      k := k + 1;
    }
  }

  /** If nothing was left behind, everything reachable is clean, whatever the shape of the graph. */
  lemma NothingLeftBehind(d: Document)
    requires DocumentWellFormed(d) && Passes(d) && LeftBehind(d) == {}
    ensures AllReachableClean(d)
  {
    WalkSound(d);
    forall path | IsPath(d.heap, Roots(d), path) ensures Clean(d.heap, Last(path)) {
      var k := ChainSplits(d.heap, Roots(d), WalkOf(d).state.visited, path);
    }
  }

  lemma GrownReachable(heap: Heap, roots: set<ObjId>, visited: set<ObjId>)
    requires Grown(heap, roots, {}, visited)
    ensures forall n :: n in visited ==> n in heap && Reachable(heap, roots, n)
  {
    hide Explored, Shadowed, Depth;
    forall n | n in visited ensures n in heap && Reachable(heap, roots, n) {
      assert n in visited - {} && Near(heap, roots, n);
      var path :| IsPath(heap, roots, path) && Last(path) == n && Depth(heap, path) <= 50;
    }
  }

  /** A reference is left behind only where a reachable reference leads to it. */
  lemma LeftBehindIsDouble(d: Document)
    requires DocumentWellFormed(d) && Passes(d) && NoDoubleReference(d)
    ensures LeftBehind(d) == {}
  {
    WalkSound(d);
    var visited := WalkOf(d).state.visited;
    GrownReachable(d.heap, Roots(d), visited);
    forall n | n in LeftBehind(d) ensures false {
      BehindReference(d, visited, n);
    }
  }

  lemma BehindReference(d: Document, visited: set<ObjId>, n: ObjId)
    requires Grown(d.heap, Roots(d), {}, visited) && n in Unfollowed(d.heap, visited)
    requires forall m :: m in visited ==> m in d.heap && Reachable(d.heap, Roots(d), m)
    ensures !NoDoubleReference(d)
  {
    hide Near, Reachable, Clean;
    assert n in visited - {} && Shadowed(d.heap, n, visited);
    var m :| m in visited && m in d.heap && d.heap[m] == Indirect(Some(n));
  }

  /** Without a reachable reference to a reference, a document that passes is clean throughout. */
  lemma PassingIsClean(d: Document)
    requires DocumentWellFormed(d) && Passes(d) && NoDoubleReference(d)
    ensures AllReachableClean(d)
  {
    LeftBehindIsDouble(d);
    NothingLeftBehind(d);
  }

  // ----- what passing does not guarantee

  /** `other` agrees with `heap` on the visited objects, but a reference that was not followed may lead anywhere. */
  ghost predicate Alike(heap: Heap, other: Heap, visited: set<ObjId>) {
    && WellFormed(heap) && WellFormed(other) && heap.Keys <= other.Keys
    && (forall n :: n in visited && n in heap && n !in Unfollowed(heap, visited) ==> other[n] == heap[n])
    && (forall n :: n in visited && n in heap && n in Unfollowed(heap, visited) ==> other[n].Indirect?)
  }

  /** Neither object is a dictionary, or they are the same. */
  ghost predicate SameAsRoot(a: Obj, b: Obj) { a == b || (!a.Dict? && !b.Dict?) }

  /** Two documents that the walk of the first cannot tell apart. */
  ghost predicate SameToWalk(d: Document, e: Document)
    requires DocumentWellFormed(d)
  {
    && DocumentWellFormed(e) && e.pages == d.pages && e.catalog == d.catalog
    && Alike(d.heap, e.heap, WalkOf(d).state.visited)
    && (d.pages.Some? ==> forall p :: p in d.pages.value && p.Some? ==> SameAsRoot(d.heap[p.value], e.heap[p.value]))
    && (d.catalog.Some? && d.catalog.value.Some? ==> SameAsRoot(d.heap[d.catalog.value.value], e.heap[d.catalog.value.value]))
  }

  lemma {:induction false} VisitsGrow(heap: Heap, obj: ObjId, depth: nat, s: State)
    requires WellFormed(heap) && obj in heap && depth <= MAX_DEPTH + 1
    ensures s.visited <= InspectAt(heap, obj, depth, s).state.visited
    decreases MAX_DEPTH + 1 - depth, 2, 0
  {
    if depth <= MAX_DEPTH && s.count < MAX_OBJECTS && obj !in s.visited {
      var marked := State(s.visited + {obj}, s.count + 1, s.calls + 1);
      if !heap[obj].Indirect? {
        ChildVisitsGrow(heap, obj, depth, marked);
      } else if heap[obj].target.Some? {
        var target := heap[obj].target.value;
        assert target in Successors(heap[obj]);
        ChildVisitsGrow(heap, target, depth, marked.(visited := marked.visited + {target}));
      }
    }
  }

  lemma {:induction false} ChildVisitsGrow(heap: Heap, obj: ObjId, depth: nat, s: State)
    requires WellFormed(heap) && obj in heap && depth <= MAX_DEPTH
    ensures s.visited <= ChildrenAt(heap, obj, depth, s).state.visited
    decreases MAX_DEPTH + 1 - depth, 1, 0
  {
    if heap[obj].Dict? {
      EntryVisitsGrow(heap, obj, 0, depth, s);
    } else if heap[obj].Array? {
      ItemVisitsGrow(heap, obj, 0, depth, s);
    }
  }

  lemma {:induction false} EntryVisitsGrow(heap: Heap, obj: ObjId, k: nat, depth: nat, s: State)
    requires WellFormed(heap) && obj in heap && heap[obj].Dict? && k <= |heap[obj].entries| && depth <= MAX_DEPTH
    ensures s.visited <= EntriesAt(heap, obj, k, depth, s).state.visited
    decreases MAX_DEPTH + 1 - depth, 0, |heap[obj].entries| - k
  {
    if k < |heap[obj].entries| && EntryReason(heap[obj].entries[k]).None? {
      var e := heap[obj].entries[k];
      assert e in heap[obj].entries && e.value.value in Successors(heap[obj]);
      VisitsGrow(heap, e.value.value, depth + 1, s);
      EntryVisitsGrow(heap, obj, k + 1, depth, InspectAt(heap, e.value.value, depth + 1, s).state);
    }
  }

  lemma {:induction false} ItemVisitsGrow(heap: Heap, obj: ObjId, k: nat, depth: nat, s: State)
    requires WellFormed(heap) && obj in heap && heap[obj].Array? && k <= |heap[obj].items| && depth <= MAX_DEPTH
    ensures s.visited <= ItemsAt(heap, obj, k, depth, s).state.visited
    decreases MAX_DEPTH + 1 - depth, 0, |heap[obj].items| - k
  {
    if k < |heap[obj].items| {
      assert heap[obj].items[k] in Successors(heap[obj]);
      VisitsGrow(heap, heap[obj].items[k], depth + 1, s);
      ItemVisitsGrow(heap, obj, k + 1, depth, InspectAt(heap, heap[obj].items[k], depth + 1, s).state);
    }
  }

  /** A call that rejects nothing goes the same way on every alike heap. */
  lemma {:induction false} InspectAlike(heap: Heap, other: Heap, visited: set<ObjId>, obj: ObjId, depth: nat, s: State)
    requires Alike(heap, other, visited) && obj in heap && depth <= MAX_DEPTH + 1
    requires InspectAt(heap, obj, depth, s).reason.None? && InspectAt(heap, obj, depth, s).state.visited <= visited
    ensures InspectAt(other, obj, depth, s) == InspectAt(heap, obj, depth, s)
    decreases MAX_DEPTH + 1 - depth, 2, 0
  {
    if obj !in s.visited {
      hide EntryReason;
      VisitsGrow(heap, obj, depth, s);
      var marked := State(s.visited + {obj}, s.count + 1, s.calls + 1);
      if !heap[obj].Indirect? {
        ChildVisitsGrow(heap, obj, depth, marked);
        ChildrenAlike(heap, other, visited, obj, depth, marked);
      } else {
        var target := heap[obj].target.value;
        assert target in Successors(heap[obj]);
        ChildVisitsGrow(heap, target, depth, marked.(visited := marked.visited + {target}));
        assert Explored(heap, obj, visited);
        assert other[obj] == heap[obj] && other[target].Null? == heap[target].Null?;
        if target !in marked.visited {
          ChildrenAlike(heap, other, visited, target, depth, marked.(visited := marked.visited + {target}));
        }
      }
    }
  }

  lemma {:induction false} ChildrenAlike(heap: Heap, other: Heap, visited: set<ObjId>, obj: ObjId, depth: nat, s: State)
    requires Alike(heap, other, visited) && obj in heap && obj in visited && depth <= MAX_DEPTH
    requires ChildrenAt(heap, obj, depth, s).reason.None? && ChildrenAt(heap, obj, depth, s).state.visited <= visited
    ensures ChildrenAt(other, obj, depth, s) == ChildrenAt(heap, obj, depth, s)
    decreases MAX_DEPTH + 1 - depth, 1, 0
  {
    if heap[obj].Dict? {
      EntriesAlike(heap, other, visited, obj, 0, depth, s);
    } else if heap[obj].Array? {
      ItemsAlike(heap, other, visited, obj, 0, depth, s);
    }
  }

  lemma {:induction false} EntriesAlike(heap: Heap, other: Heap, visited: set<ObjId>, obj: ObjId, k: nat, depth: nat, s: State)
    requires Alike(heap, other, visited) && obj in heap && obj in visited && depth <= MAX_DEPTH
    requires heap[obj].Dict? && other[obj] == heap[obj] && k <= |heap[obj].entries|
    requires EntriesAt(heap, obj, k, depth, s).reason.None? && EntriesAt(heap, obj, k, depth, s).state.visited <= visited
    ensures EntriesAt(other, obj, k, depth, s) == EntriesAt(heap, obj, k, depth, s)
    decreases MAX_DEPTH + 1 - depth, 0, |heap[obj].entries| - k
  {
    if k < |heap[obj].entries| {
      var e := heap[obj].entries[k];
      assert e in heap[obj].entries && e.value.value in Successors(heap[obj]);
      var v := InspectAt(heap, e.value.value, depth + 1, s);
      EntryVisitsGrow(heap, obj, k + 1, depth, v.state);
      InspectAlike(heap, other, visited, e.value.value, depth + 1, s);
      EntriesAlike(heap, other, visited, obj, k + 1, depth, v.state);
    }
  }

  lemma {:induction false} ItemsAlike(heap: Heap, other: Heap, visited: set<ObjId>, obj: ObjId, k: nat, depth: nat, s: State)
    requires Alike(heap, other, visited) && obj in heap && obj in visited && depth <= MAX_DEPTH
    requires heap[obj].Array? && other[obj] == heap[obj] && k <= |heap[obj].items|
    requires ItemsAt(heap, obj, k, depth, s).reason.None? && ItemsAt(heap, obj, k, depth, s).state.visited <= visited
    ensures ItemsAt(other, obj, k, depth, s) == ItemsAt(heap, obj, k, depth, s)
    decreases MAX_DEPTH + 1 - depth, 0, |heap[obj].items| - k
  {
    if k < |heap[obj].items| {
      var item := heap[obj].items[k];
      assert item in Successors(heap[obj]);
      var v := InspectAt(heap, item, depth + 1, s);
      ItemVisitsGrow(heap, obj, k + 1, depth, v.state);
      InspectAlike(heap, other, visited, item, depth + 1, s);
      ItemsAlike(heap, other, visited, obj, k + 1, depth, v.state);
    }
  }

  lemma {:induction false} PageVisitsGrow(d: Document, k: nat, s: State)
    requires DocumentWellFormed(d) && d.pages.Some? && k <= |FirstPages(d.pages.value)|
    ensures s.visited <= PagesAt(d, k, s).state.visited
    decreases |FirstPages(d.pages.value)| - k
  {
    hide InspectAt;
    var pages := FirstPages(d.pages.value);
    if k < |pages| && pages[k].Some? {
      assert pages[k] in d.pages.value;
      var page := pages[k].value;
      VisitsGrow(d.heap, page, 0, s);
      PageVisitsGrow(d, k + 1, if d.heap[page].Dict? then InspectAt(d.heap, page, 0, s).state else s);
    }
  }

  lemma {:induction false} PagesAlike(d: Document, e: Document, k: nat, s: State)
    requires DocumentWellFormed(d) && SameToWalk(d, e) && d.pages.Some? && k <= |FirstPages(d.pages.value)|
    requires PagesAt(d, k, s).reason.None? && PagesAt(d, k, s).state.visited <= WalkOf(d).state.visited
    ensures PagesAt(e, k, s) == PagesAt(d, k, s)
    decreases |FirstPages(d.pages.value)| - k
  {
    hide InspectAt, WalkOf;
    var pages := FirstPages(d.pages.value);
    if k < |pages| {
      assert pages[k] in d.pages.value;
      var page := pages[k].value;
      var next := if d.heap[page].Dict? then InspectAt(d.heap, page, 0, s).state else s;
      PageVisitsGrow(d, k + 1, next);
      if d.heap[page].Dict? {
        InspectAlike(d.heap, e.heap, WalkOf(d).state.visited, page, 0, s);
      }
      PagesAlike(d, e, k + 1, next);
    }
  }

  /** The walk of a passing document goes the same way on every document it cannot tell apart. */
  lemma WalkAlike(d: Document, e: Document)
    requires DocumentWellFormed(d) && Passes(d) && SameToWalk(d, e)
    ensures WalkOf(e) == WalkOf(d)
  {
    hide InspectAt, PagesAt;
    var v := PagesAt(d, 0, State({}, 0, 0));
    if CatalogRoots(d) != {} {
      VisitsGrow(d.heap, d.catalog.value.value, 0, v.state);
    }
    PagesAlike(d, e, 0, State({}, 0, 0));
    if CatalogRoots(d) != {} {
      InspectAlike(d.heap, e.heap, WalkOf(d).state.visited, d.catalog.value.value, 0, v.state);
    }
  }

  lemma {:induction false} Unused(ids: set<ObjId>) returns (unused: ObjId)
    ensures forall n :: n in ids ==> n < unused
    decreases |ids|
  {
    unused := 0;
    if n :| n in ids {
      var rest := Unused(ids - {n});
      unused := if rest > n then rest else n + 1;
      assert forall m :: m in ids ==> m == n || m in ids - {n};
    }
  }

  /** The document with one reference leading to a new dictionary that holds a script. */
  ghost function Redirected(d: Document, s: ObjId, unused: ObjId): Document {
    d.(heap := d.heap[s := Indirect(Some(unused))][unused := Dict([Entry("/JS", None, None)])])
  }

  lemma RedirectedSame(d: Document, s: ObjId, unused: ObjId)
    requires DocumentWellFormed(d) && s in LeftBehind(d) && unused !in d.heap
    ensures SameToWalk(d, Redirected(d, s, unused)) && Roots(Redirected(d, s, unused)) == Roots(d)
  {
    hide WalkOf;
    var e := Redirected(d, s, unused);
    assert e.heap[unused] == Dict([Entry("/JS", None, None)]) && e.heap[s] == Indirect(Some(unused));
    forall n | n in e.heap ensures Successors(e.heap[n]) <= e.heap.Keys {
      assert n in d.heap ==> Successors(d.heap[n]) <= d.heap.Keys;
    }
    if d.pages.Some? {
      assert forall p :: p in FirstPages(d.pages.value) ==> p in d.pages.value;
      assert PageRoots(e.heap, FirstPages(d.pages.value)) == PageRoots(d.heap, FirstPages(d.pages.value));
    }
  }

  /** A chain to `s` leads to it in any heap that differs at `s` only. */
  lemma ChainKept(heap: Heap, other: Heap, roots: set<ObjId>, s: ObjId, path: seq<ObjId>) returns (kept: seq<ObjId>)
    requires IsPath(heap, roots, path) && Last(path) == s && heap.Keys <= other.Keys
    requires forall n :: n in heap && n != s ==> other[n] == heap[n]
    ensures IsPath(other, roots, kept) && Last(kept) == s
  {
    var k := 0;
    while path[k] != s
      invariant k < |path| && forall i :: 0 <= i < k ==> path[i] != s
      decreases |path| - k
    {
      k := k + 1;
    }
    kept := path[..k + 1];
  }

  lemma RedirectedUnclean(d: Document, s: ObjId, unused: ObjId)
    requires DocumentWellFormed(d) && Passes(d) && s in LeftBehind(d) && unused !in d.heap
    ensures !AllReachableClean(Redirected(d, s, unused))
  {
    WalkSound(d);
    RedirectedSame(d, s, unused);
    hide WalkOf, Roots, Unreadable, SameToWalk, Explored, Clean, Justified;
    var e := Redirected(d, s, unused);
    assert s in WalkOf(d).state.visited - {};
    var path :| IsPath(d.heap, Roots(d), path) && Last(path) == s;
    var kept := ChainKept(d.heap, e.heap, Roots(d), s, path);
    ScriptUnclean(e, kept, unused);
  }

  lemma ScriptUnclean(e: Document, path: seq<ObjId>, unused: ObjId)
    requires IsPath(e.heap, Roots(e), path) && unused in e.heap && unused in Successors(e.heap[Last(path)])
    requires e.heap[unused] == Dict([Entry("/JS", None, None)])
    ensures !AllReachableClean(e)
  {
    hide Roots;
    ExtendPath(e.heap, Roots(e), path, unused);
    var entries := e.heap[unused].entries;
    assert entries[0] in entries && EntryReason(entries[0]) == Some(ActiveContent);
    assert Defective(e.heap, Last(path + [unused]), ActiveContent);
  }

  lemma AlikeExplored(heap: Heap, other: Heap, visited: set<ObjId>, n: ObjId)
    requires Alike(heap, other, visited) && visited <= heap.Keys && Unfollowed(heap, visited) == {}
    requires n in visited && heap[n].Indirect?
    ensures Explored(other, n, visited)
  {
    assert n !in Unfollowed(heap, visited);
    assert Explored(heap, n, visited) && other[n] == heap[n];
    assert !Defective(heap, n, Malformed);
    var target := heap[n].target.value;
    assert target in Successors(heap[n]) && target !in Unfollowed(heap, visited);
    assert other[target] == heap[target];
  }

  lemma AlikeNothingLeftBehind(d: Document, e: Document)
    requires DocumentWellFormed(d) && Passes(d) && LeftBehind(d) == {} && SameToWalk(d, e)
    ensures AllReachableClean(e)
  {
    WalkSound(d);
    WalkAlike(d, e);
    var visited := WalkOf(d).state.visited;
    hide WalkOf, Explored, Reachable, Roots, Unreadable, AllReachableClean, Justified, SameAsRoot;
    assert forall n :: n in visited ==> n in visited - {};
    forall n | n in visited && e.heap[n].Indirect? ensures Explored(e.heap, n, visited) {
      assert n !in Unfollowed(d.heap, visited);
      AlikeExplored(d.heap, e.heap, visited, n);
    }
    NothingLeftBehind(e);
  }

  /** What a passing walk is worth: it vouches for every document it cannot tell from this one
      exactly when it left no reference behind. */
  lemma PassingVouchesExactly(d: Document)
    requires DocumentWellFormed(d) && Passes(d)
    ensures LeftBehind(d) == {} <==> forall e: Document :: SameToWalk(d, e) ==> AllReachableClean(e)
  {
    if LeftBehind(d) == {} {
      forall e: Document | SameToWalk(d, e) ensures AllReachableClean(e) {
        AlikeNothingLeftBehind(d, e);
      }
    } else {
      var s :| s in LeftBehind(d);
      var unused := Unused(d.heap.Keys);
      RedirectedSame(d, s, unused);
      RedirectedUnclean(d, s, unused);
    }
  }

  /** A script behind two references, in an array of the catalog. */
  const HIDDEN := Document(false, map[
    0 := Dict([Entry("/Names", Some("[1 0 R]"), Some(4))]),
    1 := Indirect(Some(2)),
    2 := Indirect(Some(3)),
    3 := Dict([Entry("/JS", Some("app.alert"), Some(5))]),
    4 := Array([1]),
    5 := Leaf], Some([]), Some(Some(0)))

  lemma HiddenWellFormed()
    ensures DocumentWellFormed(HIDDEN) && Roots(HIDDEN) == {0}
  {
    assert HIDDEN.heap[0].entries == [Entry("/Names", Some("[1 0 R]"), Some(4))];
    assert HIDDEN.heap[3].entries == [Entry("/JS", Some("app.alert"), Some(5))];
  }

  lemma HiddenReference()
    ensures WellFormed(HIDDEN.heap)
    ensures InspectAt(HIDDEN.heap, 1, 2, State({0, 4}, 2, 2)) == Visit(None, State({0, 4, 1, 2}, 3, 3))
  {
    HiddenWellFormed();
    hide EntryReason, EntriesAt, ItemsAt;
  }

  lemma HiddenArray()
    ensures WellFormed(HIDDEN.heap)
    ensures InspectAt(HIDDEN.heap, 4, 1, State({0}, 1, 1)) == Visit(None, State({0, 4, 1, 2}, 3, 3))
  {
    HiddenReference();
    hide EntryReason, EntriesAt, WellFormed;
    assert ItemsAt(HIDDEN.heap, 4, 1, 1, State({0, 4, 1, 2}, 3, 3)) == Visit(None, State({0, 4, 1, 2}, 3, 3));
    assert ItemsAt(HIDDEN.heap, 4, 0, 1, State({0, 4}, 2, 2)) == Visit(None, State({0, 4, 1, 2}, 3, 3));
  }

  lemma HiddenWalk()
    ensures DocumentWellFormed(HIDDEN) && WalkOf(HIDDEN) == Visit(None, State({0, 4, 1, 2}, 3, 3))
  {
    HiddenWellFormed();
    HiddenArray();
    var heap := HIDDEN.heap;
    assert EntryReason(heap[0].entries[0]).None? by { hide InspectAt; }
    hide EntryReason, InspectAt, WellFormed;
    HiddenCatalog();
  }

  lemma HiddenCatalog()
    requires WellFormed(HIDDEN.heap) && EntryReason(HIDDEN.heap[0].entries[0]).None?
    requires InspectAt(HIDDEN.heap, 4, 1, State({0}, 1, 1)) == Visit(None, State({0, 4, 1, 2}, 3, 3))
    ensures InspectAt(HIDDEN.heap, 0, 0, State({}, 0, 0)) == Visit(None, State({0, 4, 1, 2}, 3, 3))
  {
    hide EntryReason, ItemsAt, WellFormed;
    var heap := HIDDEN.heap;
    assert heap[0].entries == [Entry("/Names", Some("[1 0 R]"), Some(4))];
    assert EntriesAt(heap, 0, 1, 0, State({0, 4, 1, 2}, 3, 3)) == Visit(None, State({0, 4, 1, 2}, 3, 3));
    assert EntriesAt(heap, 0, 0, 0, State({0}, 1, 1)) == Visit(None, State({0, 4, 1, 2}, 3, 3));
    assert {} + {0} == {0} && ChildrenAt(heap, 0, 0, State({0}, 1, 1)) == Visit(None, State({0, 4, 1, 2}, 3, 3));
  }

  lemma HiddenChain()
    ensures IsPath(HIDDEN.heap, {0}, [0, 4, 1, 2]) && Reachable(HIDDEN.heap, {0}, 1)
  {
    var heap, path := HIDDEN.heap, [0, 4, 1, 2];
    assert heap[0].entries == [Entry("/Names", Some("[1 0 R]"), Some(4))];
    assert heap[0].entries[0] in heap[0].entries && 4 in Successors(heap[0]);
    assert heap[4].items[0] == 1;
    assert IsPath(heap, {0}, path[..3]) && Last(path[..3]) == 1;
  }

  /** The walk passes it, although the script is reachable. */
  lemma HiddenPasses()
    ensures DocumentWellFormed(HIDDEN) && Passes(HIDDEN) && 2 in LeftBehind(HIDDEN)
    ensures !NoDoubleReference(HIDDEN) && !AllReachableClean(HIDDEN)
  {
    HiddenWellFormed();
    HiddenWalk();
    HiddenChain();
    hide WalkOf, IsPath, Roots;
    assert !Explored(HIDDEN.heap, 2, {0, 4, 1, 2}) by {
      assert 3 in Successors(HIDDEN.heap[2]);
    }
    ScriptReached();
  }

  lemma ScriptReached()
    requires Roots(HIDDEN) == {0} && IsPath(HIDDEN.heap, {0}, [0, 4, 1, 2])
    ensures !AllReachableClean(HIDDEN)
  {
    var heap := HIDDEN.heap;
    ExtendPath(heap, {0}, [0, 4, 1, 2], 3);
    assert heap[3].entries[0] in heap[3].entries && EntryReason(heap[3].entries[0]) == Some(ActiveContent);
    assert Defective(heap, Last([0, 4, 1, 2] + [3]), ActiveContent);
  }

  // ----- the service

  /** What the verdict of the walk says of the document. */
  lemma WalkVouches(d: Document)
    requires DocumentWellFormed(d)
    ensures var r := WalkOf(d).reason;
      && WalkOf(d).state.calls <= 10001
      && (r.None? ==> !Unreadable(d) && (LeftBehind(d) == {} || NoDoubleReference(d) ==> AllReachableClean(d)))
      && (r.Some? ==> (r.value == Malformed && Unreadable(d)) || Justified(d.heap, Roots(d), WalkOf(d).state.count, r.value))
  {
    hide WalkOf, AllReachableClean, NoDoubleReference, LeftBehind, Justified, Unreadable, WellFormed, Roots, Grown;
    WalkSound(d);
    if WalkOf(d).reason.None? {
      if LeftBehind(d) == {} {
        NothingLeftBehind(d);
      }
      if NoDoubleReference(d) {
        PassingIsClean(d);
      }
    }
  }

  /** The pages, then the catalog, with one inspector. */
  method InspectPdfObjects(d: Document) returns (r: Option<Reason>, ghost calls: nat)
    requires DocumentWellFormed(d)
    ensures r == WalkOf(d).reason && calls == WalkOf(d).state.calls <= 10001
    ensures r.None? ==> !Unreadable(d) && (LeftBehind(d) == {} ==> AllReachableClean(d))
    ensures r.None? && NoDoubleReference(d) ==> AllReachableClean(d)
    ensures r.Some? ==> (r.value == Malformed && Unreadable(d)) || Justified(d.heap, Roots(d), WalkOf(d).state.count, r.value)
  {
    hide InspectAt, AllReachableClean, NoDoubleReference, LeftBehind, Justified, Unreadable;
    WalkVouches(d);
    var w := new Inspector(d.heap);
    if d.pages.None? {
      return Some(Malformed), w.calls;
    }
    var pages := FirstPages(d.pages.value);
    for i := 0 to |pages|
      invariant w.heap == d.heap
      invariant PagesAt(d, 0, State({}, 0, 0)) == PagesAt(d, i, w.View())
    {
      if pages[i].None? {
        return Some(Malformed), w.calls;
      }
      assert pages[i] in d.pages.value;
      if d.heap[pages[i].value].Dict? {
        r := w.Inspect(pages[i].value, 0);
        if r.Some? {
          return r, w.calls;
        }
      }
    }
    if d.catalog.None? {
      return Some(Malformed), w.calls;
    }
    if d.catalog.value.Some? {
      var root := d.catalog.value.value;
      if d.heap[root].Dict? && d.heap[root].entries != [] {
        r := w.Inspect(root, 0);
        return r, w.calls;
      }
    }
    return None, w.calls;
  }

  /** What the service accepts, given what the walk says. */
  ghost predicate Acceptable(d: Document)
    requires DocumentWellFormed(d)
  {
    !d.encrypted && Passes(d) && !Unreadable(d) && |d.pages.value| <= 2000
  }

  /** Safe means: readable, unencrypted, at most 2000 pages, and nothing rejected by the walk. */
  method ValidatePdfSecurity(file: Option<Document>) returns (safe: bool, reason: Option<Reason>)
    requires file.Some? ==> DocumentWellFormed(file.value)
    ensures safe <==> reason.None?
    ensures safe <==> file.Some? && Acceptable(file.value)
    ensures safe && NoDoubleReference(file.value) ==> AllReachableClean(file.value)
    ensures safe ==> Roots(file.value) == PageRoots(file.value.heap, file.value.pages.value) + CatalogRoots(file.value)
    ensures safe && NoDoubleReference(file.value) ==>
      NothingForbidden(file.value)
    ensures file.None? ==> reason == Some(Malformed)
    ensures file.Some? && file.value.encrypted ==> reason == Some(Encrypted)
    ensures file.Some? && !file.value.encrypted && !Passes(file.value) ==> reason == WalkOf(file.value).reason
    ensures file.Some? && !file.value.encrypted && Passes(file.value) && !safe ==> reason == Some(UnsafeStructure)
  {
    hide WalkOf, AllReachableClean, NoDoubleReference;
    if file.None? {
      return false, Some(Malformed);
    }
    var d := file.value;
    if d.encrypted {
      return false, Some(Encrypted);
    }
    var result, _ := InspectPdfObjects(d);
    if result.Some? {
      return false, result;
    }
    if |d.pages.value| > MAX_PAGES {
      return false, Some(UnsafeStructure);
    }
    if NoDoubleReference(d) {
      CleanHasNoForbidden(d);
    }
    return true, None;
  }

  /** No reachable dictionary has a forbidden key or shows an attached file. */
  ghost predicate NothingForbidden(d: Document) {
    forall n, e :: Reachable(d.heap, Roots(d), n) && n in d.heap && d.heap[n].Dict? && e in d.heap[n].entries ==>
      !Forbidden(e.key) && !(e.key == "/Subtype" && e.shown == Some("/FileAttachment"))
  }

  /** Where everything reachable is clean, no reachable dictionary has a forbidden key or an attached file. */
  lemma CleanHasNoForbidden(d: Document)
    requires DocumentWellFormed(d) && AllReachableClean(d)
    ensures NothingForbidden(d)
  {
    forall n, e | Reachable(d.heap, Roots(d), n) && n in d.heap && d.heap[n].Dict? && e in d.heap[n].entries
      ensures !Forbidden(e.key) && !(e.key == "/Subtype" && e.shown == Some("/FileAttachment"))
    {
      var path :| IsPath(d.heap, Roots(d), path) && Last(path) == n;
      KeyReasons(e.key);
      assert EntryReason(e).Some? ==> Defective(d.heap, n, EntryReason(e).value);
    }
  }
}
