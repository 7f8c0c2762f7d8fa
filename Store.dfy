/** The client-side state store (restaurant/src/core/store.js): one state
    tree addressed by dot-separated paths, written optimistically, persisted
    to local storage, forwarded to the server and announced on the event bus,
    and reconciled from the server's full snapshots and single changes. */
module Store {
  import opened Values
  import opened Events

  /** The event the store announces every change with. */
  const ChangedEvent: string := "store:changed"

  /** The payload of `store:changed`: `{path, value}`. */
  function ChangeNote(path: Value, value: Value): Value {
    Obj(map["path" := path, "value" := value])
  }

  /** The demo seed (`seedData()`), abbreviated: the settings, the five demo
      users and the empty working collections. */
  function Seed(): Value {
    Obj(map[
      "settings" := Obj(map[
        "restaurantName" := Str("RestroFlow"),
        "taxRate" := Num(10),
        "serviceChargeRate" := Num(5),
        "currency" := Str("USD")]),
      "users" := Arr([
        User("u1", "Alex", "1111", "manager"),
        User("u2", "Maria", "2222", "waiter"),
        User("u3", "James", "3333", "waiter"),
        User("u4", "Chef K", "4444", "kitchen"),
        User("u5", "Sam", "5555", "cashier")]),
      "sessions" := Arr([]),
      "orders" := Arr([]),
      "bills" := Arr([]),
      "auditLog" := Arr([])])
  }

  function User(id: string, name: string, pin: string, role: string): Value {
    Obj(map["id" := Str(id), "name" := Str(name), "pin" := Str(pin), "role" := Str(role), "active" := Bool(true)])
  }

  /** What reading the stored copy yields: `getItem` threw, there is no
      entry, the entry is the empty string, `JSON.parse` threw, or the parsed
      value. */
  datatype StorageRead = ReadThrows | NoEntry | EmptyText | Unparsable | Parsed(value: Value)

  /** `loadLocal`: the stored tree when one can be read back (whatever JSON
      value it is, `null` included), otherwise the seed. */
  function LoadLocal(read: StorageRead): (r: Value)
    ensures read.Parsed? ==> r == read.value
    ensures !read.Parsed? ==> r == Seed()
  {
    if read.Parsed? then read.value else Seed()
  }

  // ---------------------------------------------------------------------------
  // Paths

  /** `{p0: {p1: ... v}}`: the nest of fresh objects `setPath` builds below a
      missing node. */
  function Nest(parts: seq<string>, v: Value): Value
    decreases |parts|
  {
    if |parts| == 0 then v else Obj(map[parts[0] := Nest(parts[1..], v)])
  }

  /** `setPath` on a tree, by segments: each missing (`== null`) intermediate
      is replaced by `{}`, then the last segment is assigned. `Err` is the
      exception the assignment throws, and then the tree is unchanged. */
  function SetPath(root: Value, parts: seq<string>, v: Value): (r: Result<Value>)
    requires |parts| >= 1
    ensures r.Ok? ==> root.Obj? || root.Arr?
    ensures r.Ok? && root.Obj? ==> r.value.Obj? && r.value.fields.Keys == root.fields.Keys + {parts[0]}
    ensures r.Ok? && root.Arr? ==> r.value.Arr? && |root.items| <= |r.value.items| <= |root.items| + 1
    decreases |parts|
  {
    if |parts| == 1 then PutProp(root, parts[0], v)
    else
      var child := Prop(root, parts[0]);
      match SetPath(if Nullish(child) then EmptyObj else child, parts[1..], v)
      case Err(f) => Err(f)
      case Ok(sub) => PutProp(root, parts[0], sub)
  }

  /** The read loop of `get`, by segments: `undefined` as soon as a node on
      the way is `null` or `undefined`. */
  function GetPath(obj: Value, parts: seq<string>): Value
    decreases |parts|
  {
    if |parts| == 0 then obj
    else if Nullish(obj) then Undefined
    else GetPath(Prop(obj, parts[0]), parts[1..])
  }

  /** `store.get(path)` on a tree: the whole tree for the empty (falsy)
      path, otherwise the value at the dot-separated path. */
  function Lookup(tree: Value, path: string): (r: Value)
    ensures path == "" ==> r == tree
    ensures path != "" && '.' !in path ==> r == (if Nullish(tree) then Undefined else Prop(tree, path))
  {
    if path == "" then tree
    else
      SplitWithoutSep(path, '.');
      assert '.' !in path ==> GetPath(tree, Split(path, '.')) == GetPath(tree, [path]);
      assert !Nullish(tree) ==> GetPath(tree, [path]) == GetPath(Prop(tree, path), [path][1..]);
      assert [path][1..] == [];
      GetPath(tree, Split(path, '.'))
  }

  /** `setPath(tree, path, value)`. */
  function Write(tree: Value, path: string, value: Value): Result<Value> {
    SetPath(tree, Split(path, '.'), value)
  }

  /** After a successful write, reading the same segments gives the value. */
  lemma {:induction false} SetThenGet(root: Value, parts: seq<string>, v: Value)
    requires |parts| >= 1
    requires SetPath(root, parts, v).Ok?
    ensures GetPath(SetPath(root, parts, v).value, parts) == v
    decreases |parts|
  {
    var t := SetPath(root, parts, v).value;
    assert !Nullish(t);
    if |parts| == 1 {
      assert parts[1..] == [];
    } else {
      var child := Prop(root, parts[0]);
      var next := if Nullish(child) then EmptyObj else child;
      SetThenGet(next, parts[1..], v);
    }
  }

  /** `set(p, v)` then `get(p)` gives `v` for every non-empty path. */
  lemma WriteThenLookup(tree: Value, path: string, v: Value)
    requires path != ""
    requires Write(tree, path, v).Ok?
    ensures Lookup(Write(tree, path, v).value, path) == v
  {
    SetThenGet(tree, Split(path, '.'), v);
  }

  /** Writing below an empty object builds the nest of objects. */
  lemma {:induction false} SetPathOnEmpty(parts: seq<string>, v: Value)
    requires |parts| >= 1
    ensures SetPath(EmptyObj, parts, v) == Ok(Nest(parts, v))
    decreases |parts|
  {
    if |parts| == 1 {
      assert Nest(parts[1..], v) == v;
    } else {
      SetPathOnEmpty(parts[1..], v);
    }
  }

  /** A missing or null node under an object is created as an empty object
      instead of causing a failure. */
  lemma SetPathCreatesMissing(root: Value, parts: seq<string>, v: Value)
    requires root.Obj? && |parts| >= 1
    requires Nullish(Prop(root, parts[0]))
    ensures SetPath(root, parts, v) == Ok(Obj(root.fields[parts[0] := Nest(parts[1..], v)]))
  {
    if |parts| > 1 {
      SetPathOnEmpty(parts[1..], v);
    }
  }

  /** A write under an object leaves the object's other keys as they were. */
  lemma SetPathKeepsSiblings(root: Value, parts: seq<string>, v: Value, k: string)
    requires root.Obj? && |parts| >= 1 && k != parts[0]
    requires SetPath(root, parts, v).Ok?
    ensures Prop(SetPath(root, parts, v).value, k) == Prop(root, k)
  {
  }

  /** Once the walk reaches `null` or `undefined` before the last segment,
      `get` yields `undefined`. */
  lemma {:induction false} GetStopsAtNullish(obj: Value, parts: seq<string>, i: nat)
    requires i < |parts|
    requires Nullish(GetPath(obj, parts[..i]))
    ensures GetPath(obj, parts) == Undefined
    decreases i
  {
    if i == 0 {
      assert GetPath(obj, parts[..0]) == obj;
    } else if !Nullish(obj) {
      assert parts[..i][1..] == parts[1..][..i - 1];
      GetStopsAtNullish(Prop(obj, parts[0]), parts[1..], i - 1);
    }
  }

  /** A pending write-back: `node[key]` is to receive the rebuilt child. */
  datatype Frame = Frame(node: Value, key: string)

  /** Writes rebuilt children back into their parents, innermost first. */
  function Wrap(spine: seq<Frame>, r: Result<Value>): Result<Value>
    decreases |spine|
  {
    if |spine| == 0 || r.Err? then r
    else Wrap(spine[..|spine| - 1], PutProp(spine[|spine| - 1].node, spine[|spine| - 1].key, r.value))
  }

  /** One step down: the frame for the current node is pushed. */
  lemma WrapDescend(spine: seq<Frame>, node: Value, rest: seq<string>, v: Value)
    requires |rest| >= 2
    ensures
      var child := Prop(node, rest[0]);
      Wrap(spine + [Frame(node, rest[0])], SetPath(if Nullish(child) then EmptyObj else child, rest[1..], v))
        == Wrap(spine, SetPath(node, rest, v))
  {
    var spine' := spine + [Frame(node, rest[0])];
    assert spine'[..|spine'| - 1] == spine;
  }

  /** One step up: the innermost pending frame is written back. */
  lemma WrapAscend(spine: seq<Frame>, j: nat, x: Value)
    requires 0 < j <= |spine|
    ensures Wrap(spine[..j], Ok(x)) == Wrap(spine[..j - 1], PutProp(spine[j - 1].node, spine[j - 1].key, x))
  {
    assert spine[..j][..j - 1] == spine[..j - 1];
  }

  /** `setPath` as the loop it is: walk down, replacing missing nodes by `{}`,
      assign the last segment, and write each changed node back. */
  method SetPathLoop(root: Value, path: string, value: Value) returns (r: Result<Value>)
    ensures r == Write(root, path, value)
  {
    var parts := Split(path, '.');
    var spine: seq<Frame> := [];
    var current := root;
    var i := 0;
    while i < |parts| - 1
      invariant 0 <= i <= |parts| - 1
      invariant Wrap(spine, SetPath(current, parts[i..], value)) == SetPath(root, parts, value)
    {
      var child := Prop(current, parts[i]);
      var next := if Nullish(child) then EmptyObj else child;
      assert parts[i..][1..] == parts[i + 1..];
      WrapDescend(spine, current, parts[i..], value);
      spine := spine + [Frame(current, parts[i])];
      current := next;
      i := i + 1;
    }
    assert parts[i..] == [parts[|parts| - 1]];
    r := PutProp(current, parts[|parts| - 1], value);
    assert SetPath(current, parts[i..], value) == r;
    var j := |spine|;
    assert spine[..j] == spine;
    while j > 0
      invariant 0 <= j <= |spine|
      invariant Wrap(spine[..j], r) == SetPath(root, parts, value)
    {
      if r.Err? {
        return;
      }
      WrapAscend(spine, j, r.value);
      r := PutProp(spine[j - 1].node, spine[j - 1].key, r.value);
      j := j - 1;
    }
  }

  // ---------------------------------------------------------------------------
  // Array helpers

  /** `this.get(path) || []`, which must then be an array: calling `push`,
      `findIndex`, `filter` or `find` on anything else throws. */
  function ArrayAt(tree: Value, path: string): (r: Result<seq<Value>>)
    ensures !Truthy(Lookup(tree, path)) ==> r == Ok([])
    ensures Lookup(tree, path).Arr? ==> r == Ok(Lookup(tree, path).items)
    ensures r.Err? <==> Truthy(Lookup(tree, path)) && !Lookup(tree, path).Arr?
    ensures r.Err? ==> r.fault == TypeError
  {
    var v := OrElse(Lookup(tree, path), Arr([]));
    if v.Arr? then Ok(v.items) else Err(TypeError)
  }

  /** The tree after `push(path, item)`, or the fault it throws. */
  function Pushed(tree: Value, path: string, item: Value): Result<Value> {
    match ArrayAt(tree, path)
    case Err(f) => Err(f)
    case Ok(xs) => Write(tree, path, Arr(xs + [item]))
  }

  /** `push` grows the array at a non-empty path by exactly the new last
      element; in particular an absent array becomes `[item]`. */
  lemma PushedGrows(tree: Value, path: string, item: Value)
    requires path != "" && Pushed(tree, path, item).Ok?
    ensures ArrayAt(Pushed(tree, path, item).value, path) == Ok(ArrayAt(tree, path).value + [item])
    ensures !Truthy(Lookup(tree, path)) ==> ArrayAt(Pushed(tree, path, item).value, path) == Ok([item])
  {
    WriteThenLookup(tree, path, Arr(ArrayAt(tree, path).value + [item]));
    if !Truthy(Lookup(tree, path)) {
      assert ArrayAt(tree, path).value == [];
      assert [] + [item] == [item];
    }
  }

  /** The callback `x => x.id === id`. */
  predicate HasId(x: Value, id: Value) {
    StrictEq(Prop(x, "id"), id)
  }

  /** `findIndex`/`find` with a callback that reads a property of each
      element: the index of the first element satisfying `pred`; reaching a
      `null` or `undefined` element first throws. */
  function FindFirst(xs: seq<Value>, pred: Value -> bool): (r: Result<Option<nat>>)
    ensures r.Ok? && r.value.Some? ==>
      && r.value.value < |xs|
      && !Nullish(xs[r.value.value]) && pred(xs[r.value.value])
      && forall j :: 0 <= j < r.value.value ==> !Nullish(xs[j]) && !pred(xs[j])
    ensures r == Ok(None) ==> forall j :: 0 <= j < |xs| ==> !Nullish(xs[j]) && !pred(xs[j])
    ensures r.Err? ==>
      && r.fault == TypeError
      && exists j :: 0 <= j < |xs| && Nullish(xs[j]) && forall k :: 0 <= k < j ==> !Nullish(xs[k]) && !pred(xs[k])
    decreases |xs|
  {
    if |xs| == 0 then Ok(None)
    else if Nullish(xs[0]) then Err(TypeError)
    else if pred(xs[0]) then Ok(Some(0))
    else
      match FindFirst(xs[1..], pred)
      case Ok(Some(i)) => Ok(Some(i + 1))
      case Ok(None) => Ok(None)
      case Err(f) => Err(f)
  }

  /** `xs.filter(x => x.id !== id)`; every element is visited, so any
      `null` or `undefined` element throws. */
  function WithoutId(xs: seq<Value>, id: Value): (r: Result<seq<Value>>)
    ensures r.Err? ==> r.fault == TypeError
    decreases |xs|
  {
    if |xs| == 0 then Ok([])
    else if Nullish(xs[0]) then Err(TypeError)
    else
      match WithoutId(xs[1..], id)
      case Err(f) => Err(f)
      case Ok(rest) => Ok((if HasId(xs[0], id) then [] else [xs[0]]) + rest)
  }

  /** The filter throws exactly when some element is `null` or `undefined`;
      otherwise it keeps exactly the elements whose `id` is not `id`. */
  lemma {:induction false} WithoutIdMembers(xs: seq<Value>, id: Value)
    ensures WithoutId(xs, id).Err? <==> exists j :: 0 <= j < |xs| && Nullish(xs[j])
    ensures WithoutId(xs, id).Ok? ==> forall x :: x in WithoutId(xs, id).value <==> x in xs && !HasId(x, id)
    decreases |xs|
  {
    if |xs| > 0 {
      WithoutIdMembers(xs[1..], id);
      assert forall j :: 1 <= j < |xs| ==> xs[j] == xs[1..][j - 1];
      assert xs == [xs[0]] + xs[1..];
    }
  }

  /** Filtering keeps the original order: it distributes over concatenation. */
  lemma {:induction false} WithoutIdAppend(a: seq<Value>, b: seq<Value>, id: Value)
    requires WithoutId(a, id).Ok? && WithoutId(b, id).Ok?
    ensures WithoutId(a + b, id) == Ok(WithoutId(a, id).value + WithoutId(b, id).value)
    decreases |a|
  {
    if |a| == 0 {
      assert a + b == b;
      assert WithoutId(a, id).value == [];
      assert [] + WithoutId(b, id).value == WithoutId(b, id).value;
    } else {
      assert (a + b)[0] == a[0];
      assert (a + b)[1..] == a[1..] + b;
      assert WithoutId(a[1..], id).Ok?;
      WithoutIdAppend(a[1..], b, id);
      var head := if HasId(a[0], id) then [] else [a[0]];
      assert WithoutId(a, id).value == head + WithoutId(a[1..], id).value;
      assert WithoutId(a + b, id).value == head + WithoutId(a[1..] + b, id).value;
      assert head + (WithoutId(a[1..], id).value + WithoutId(b, id).value)
          == (head + WithoutId(a[1..], id).value) + WithoutId(b, id).value;
    }
  }

  /** With no element carrying the id, the filtered array equals the original. */
  lemma {:induction false} WithoutIdNoMatch(xs: seq<Value>, id: Value)
    requires forall j :: 0 <= j < |xs| ==> !Nullish(xs[j]) && !HasId(xs[j], id)
    ensures WithoutId(xs, id) == Ok(xs)
    decreases |xs|
  {
    if |xs| > 0 {
      WithoutIdNoMatch(xs[1..], id);
      assert xs == [xs[0]] + xs[1..];
    }
  }

  // ---------------------------------------------------------------------------
  // The store

  class Store {
    /** `_state`: `null` until `init`. */
    var tree: Value
    /** `_serverConnected`: set once a full snapshot arrived. */
    var serverConnected: bool
    /** Every tree written to local storage, in order. */
    var saved: seq<Value>
    /** The event bus singleton the store is wired to. */
    const bus: EventBus

    constructor (bus: EventBus)
      ensures this.bus == bus && tree == Null && !serverConnected && saved == []
    {
      this.bus := bus;
      tree := Null;
      serverConnected := false;
      saved := [];
    }

    /** Nothing the store or the bus records has changed. */
    twostate predicate Untouched()
      reads this, bus
    {
      && tree == old(tree) && saved == old(saved)
      && bus.calls == old(bus.calls) && bus.sent == old(bus.sent)
      && bus.delivered == old(bus.delivered) && bus.errors == old(bus.errors) && bus.posted == old(bus.posted)
    }

    /** The tree was replaced by `t` and `t` was persisted. */
    twostate predicate Persisted(t: Value)
      reads this
    {
      tree == t && saved == old(saved) + [t]
    }

    /** Exactly one `store:changed` with `note` was emitted with broadcast on:
        its local deliveries, its error lines and its channel post. */
    twostate predicate Announced(note: Value)
      reads this, bus
    {
      && bus.delivered == old(bus.delivered) + Deliveries(bus.listeners, Str(ChangedEvent), note, false)
      && bus.errors == old(bus.errors) + Failures(ListenersOf(bus.listeners, ChangedEvent), ChangedEvent)
      && bus.posted == old(bus.posted) + (if bus.channel then [Post(ChangedEvent, note)] else [])
    }

    /** `init`: load the local copy, subscribe the two reconciliation
        handlers (whose identities the caller supplies), and connect. */
    method Init(read: StorageRead, fullStateFn: Handler, stateChangeFn: Handler, wsThrows: bool)
      requires bus.Valid()
      modifies this`tree, bus`listeners, bus`ws, bus`ready, bus`retry
      ensures tree == LoadLocal(read)
      ensures bus.listeners == Subscribed(Subscribed(old(bus.listeners), "server:full-state", fullStateFn), "server:state-change", stateChangeFn)
      ensures bus.Valid()
      ensures wsThrows ==> bus.ws == old(bus.ws) && !bus.ready && bus.retry == Some(ThrowRetryDelay)
      ensures !wsThrows ==> bus.ws == Some(Connecting) && bus.ready == old(bus.ready) && bus.retry == old(bus.retry)
    {
      tree := LoadLocal(read);
      var _ := bus.On("server:full-state", fullStateFn);
      var _ := bus.On("server:state-change", stateChangeFn);
      bus.ConnectWS(wsThrows);
    }

    /** `get`: the read loop, stopping with `undefined` at a missing node. */
    method Get(path: string) returns (r: Value)
      ensures r == Lookup(tree, path)
    {
      if path == "" {
        return tree;
      }
      var parts := Split(path, '.');
      var obj := tree;
      for i := 0 to |parts|
        invariant GetPath(obj, parts[i..]) == Lookup(tree, path)
      {
        if Nullish(obj) {
          return Undefined;
        }
        assert parts[i..][1..] == parts[i + 1..];
        obj := Prop(obj, parts[i]);
      }
      assert parts[|parts|..] == [];
      r := obj;
    }

    /** `set`: write, persist, forward to the server once, announce once.
        If `setPath` throws, the exception leaves everything as it was. */
    method Set(path: string, value: Value) returns (o: Outcome)
      modifies this`tree, this`saved, bus`calls, bus`sent, bus`delivered, bus`errors, bus`posted
      ensures Write(old(tree), path, value).Err? ==> o == Fail(Write(old(tree), path, value).fault) && Untouched()
      ensures Write(old(tree), path, value).Ok? ==>
        && o == Done
        && Persisted(Write(old(tree), path, value).value)
        && bus.calls == old(bus.calls) + [SendToServerCall(path, value), EmitCall(ChangedEvent, ChangeNote(Str(path), value), true)]
        && bus.sent == old(bus.sent) + (if bus.IsOpen() then [SetMsg(path, value)] else [])
        && Announced(ChangeNote(Str(path), value))
      ensures o == Done && path != "" ==> Lookup(tree, path) == value
    {
      var r := SetPathLoop(tree, path, value);
      if r.Err? {
        return Fail(r.fault);
      }
      tree := r.value;
      saved := saved + [tree];
      bus.SendToServer(path, value);
      bus.Emit(ChangedEvent, ChangeNote(Str(path), value), true);
      o := Done;
      if path != "" {
        WriteThenLookup(old(tree), path, value);
      }
    }

    /** `push`: append `item` to the array at `path` (an absent one counts as
        empty) and write it back with `set`; returns `item`. */
    method Push(path: string, item: Value) returns (r: Result<Value>)
      modifies this`tree, this`saved, bus`calls, bus`sent, bus`delivered, bus`errors, bus`posted
      ensures Pushed(old(tree), path, item).Err? ==> r == Err(Pushed(old(tree), path, item).fault) && Untouched()
      ensures Pushed(old(tree), path, item).Ok? ==>
        var grown := Arr(ArrayAt(old(tree), path).value + [item]);
        && r == Ok(item)
        && Persisted(Pushed(old(tree), path, item).value)
        && bus.calls == old(bus.calls) + [SendToServerCall(path, grown), EmitCall(ChangedEvent, ChangeNote(Str(path), grown), true)]
        && bus.sent == old(bus.sent) + (if bus.IsOpen() then [SetMsg(path, grown)] else [])
        && Announced(ChangeNote(Str(path), grown))
      ensures r.Ok? && path != "" ==> ArrayAt(tree, path) == Ok(ArrayAt(old(tree), path).value + [item])
    {
      var cur := Get(path);
      var arr := OrElse(cur, Arr([]));
      if !arr.Arr? {
        return Err(TypeError);
      }
      var grown := Arr(arr.items + [item]);
      var o := Set(path, grown);
      if o.Fail? {
        return Err(o.fault);
      }
      r := Ok(item);
      if path != "" {
        PushedGrows(old(tree), path, item);
      }
    }

    /** `updateInArray`: merge `updates` into the first element whose `id`
        is `id`; with no such element return `null` and call no `set`. */
    method UpdateInArray(path: string, id: Value, updates: Value) returns (r: Result<Value>)
      modifies this`tree, this`saved, bus`calls, bus`sent, bus`delivered, bus`errors, bus`posted
      ensures ArrayAt(old(tree), path).Err? ==> r == Err(TypeError) && Untouched()
      ensures ArrayAt(old(tree), path).Ok? ==>
        var xs := ArrayAt(old(tree), path).value;
        var found := FindFirst(xs, x => HasId(x, id));
        && (found.Err? ==> r == Err(TypeError) && Untouched())
        && (found == Ok(None) ==> r == Ok(Null) && Untouched())
        && (found.Ok? && found.value.Some? ==>
              var i := found.value.value;
              var merged := Merge(xs[i], updates);
              var updated := Arr(xs[i := merged]);
              && (path != "" ==> Write(old(tree), path, updated).Ok?)
              && (Write(old(tree), path, updated).Err? ==> r == Err(Write(old(tree), path, updated).fault) && Untouched())
              && (Write(old(tree), path, updated).Ok? ==>
                    && r == Ok(merged)
                    && Persisted(Write(old(tree), path, updated).value)
                    && bus.calls == old(bus.calls) + [SendToServerCall(path, updated), EmitCall(ChangedEvent, ChangeNote(Str(path), updated), true)]
                    && bus.sent == old(bus.sent) + (if bus.IsOpen() then [SetMsg(path, updated)] else [])
                    && Announced(ChangeNote(Str(path), updated))
                    && (path != "" ==> ArrayAt(tree, path) == Ok(xs[i := merged]))))
    {
      var cur := Get(path);
      var arr := OrElse(cur, Arr([]));
      if !arr.Arr? {
        return Err(TypeError);
      }
      var found := FindFirst(arr.items, x => HasId(x, id));
      if found.Err? {
        return Err(TypeError);
      }
      if found.value.None? {
        return Ok(Null);
      }
      var i := found.value.value;
      var merged := Merge(arr.items[i], updates);
      var updated := Arr(arr.items[i := merged]);
      if path != "" {
        ContainerFoundIsWritable(tree, path);
      }
      var o := Set(path, updated);
      if o.Fail? {
        return Err(o.fault);
      }
      r := Ok(merged);
    }

    /** `removeFromArray`: write back the elements whose `id` differs; `set`
        is called even when nothing matched. */
    method RemoveFromArray(path: string, id: Value) returns (o: Outcome)
      modifies this`tree, this`saved, bus`calls, bus`sent, bus`delivered, bus`errors, bus`posted
      ensures ArrayAt(old(tree), path).Err? ==> o == Fail(TypeError) && Untouched()
      ensures ArrayAt(old(tree), path).Ok? && WithoutId(ArrayAt(old(tree), path).value, id).Err? ==>
        o == Fail(TypeError) && Untouched()
      ensures ArrayAt(old(tree), path).Ok? && WithoutId(ArrayAt(old(tree), path).value, id).Ok? ==>
        var kept := Arr(WithoutId(ArrayAt(old(tree), path).value, id).value);
        && (Write(old(tree), path, kept).Err? ==> o == Fail(Write(old(tree), path, kept).fault) && Untouched())
        && (Write(old(tree), path, kept).Ok? ==>
              && o == Done
              && Persisted(Write(old(tree), path, kept).value)
              && bus.calls == old(bus.calls) + [SendToServerCall(path, kept), EmitCall(ChangedEvent, ChangeNote(Str(path), kept), true)]
              && bus.sent == old(bus.sent) + (if bus.IsOpen() then [SetMsg(path, kept)] else [])
              && Announced(ChangeNote(Str(path), kept)))
    {
      var cur := Get(path);
      var arr := OrElse(cur, Arr([]));
      if !arr.Arr? {
        return Fail(TypeError);
      }
      var kept := WithoutId(arr.items, id);
      if kept.Err? {
        return Fail(TypeError);
      }
      o := Set(path, Arr(kept.value));
    }

    /** `findById`: the first element whose `id` is `id`, or `undefined`. */
    method FindById(path: string, id: Value) returns (r: Result<Value>)
      ensures ArrayAt(tree, path).Err? ==> r == Err(TypeError)
      ensures ArrayAt(tree, path).Ok? ==>
        var xs := ArrayAt(tree, path).value;
        var found := FindFirst(xs, x => HasId(x, id));
        && (found.Err? ==> r == Err(TypeError))
        && (found == Ok(None) ==> r == Ok(Undefined))
        && (found.Ok? && found.value.Some? ==> r == Ok(xs[found.value.value]))
    {
      var cur := Get(path);
      var arr := OrElse(cur, Arr([]));
      if !arr.Arr? {
        return Err(TypeError);
      }
      var found := FindFirst(arr.items, x => HasId(x, id));
      if found.Err? {
        return Err(TypeError);
      }
      if found.value.None? {
        return Ok(Undefined);
      }
      r := Ok(arr.items[found.value.value]);
    }

    /** `reset`: install and persist the seed; nothing is sent or emitted. */
    method Reset()
      modifies this`tree, this`saved
      ensures Persisted(Seed())
    {
      tree := Seed();
      saved := saved + [tree];
    }

    /** The `server:full-state` handler: replace the whole tree, persist it,
        and emit one `store:changed` for path '*'; nothing is sent. */
    method OnFullState(serverState: Value)
      modifies this`tree, this`saved, this`serverConnected, bus`calls, bus`delivered, bus`errors, bus`posted
      ensures Persisted(serverState) && serverConnected
      ensures bus.calls == old(bus.calls) + [EmitCall(ChangedEvent, ChangeNote(Str("*"), Null), true)]
      ensures Announced(ChangeNote(Str("*"), Null))
    {
      tree := serverState;
      saved := saved + [tree];
      serverConnected := true;
      bus.Emit(ChangedEvent, ChangeNote(Str("*"), Null), true);
    }

    /** The `server:state-change` handler: the same write, persistence and
        announcement as `set`, but nothing is forwarded to the server. The
        handler throws when the payload cannot be destructured or its path
        is not a string (`path.split`), or when `setPath` throws. */
    method OnStateChange(payload: Value) returns (o: Outcome)
      modifies this`tree, this`saved, bus`calls, bus`delivered, bus`errors, bus`posted
      ensures bus.sent == old(bus.sent)
      ensures Nullish(payload) || !Prop(payload, "path").Str? ==> o == Fail(TypeError) && Untouched()
      ensures !Nullish(payload) && Prop(payload, "path").Str? ==>
        var path := Prop(payload, "path").s;
        var value := Prop(payload, "value");
        && (Write(old(tree), path, value).Err? ==> o == Fail(Write(old(tree), path, value).fault) && Untouched())
        && (Write(old(tree), path, value).Ok? ==>
              && o == Done
              && Persisted(Write(old(tree), path, value).value)
              && bus.calls == old(bus.calls) + [EmitCall(ChangedEvent, ChangeNote(Str(path), value), true)]
              && Announced(ChangeNote(Str(path), value)))
    {
      if Nullish(payload) {
        return Fail(TypeError);
      }
      var path := Prop(payload, "path");
      var value := Prop(payload, "value");
      if !path.Str? {
        return Fail(TypeError);
      }
      var r := SetPathLoop(tree, path.s, value);
      if r.Err? {
        return Fail(r.fault);
      }
      tree := r.value;
      saved := saved + [tree];
      bus.Emit(ChangedEvent, ChangeNote(path, value), true);
      o := Done;
    }
  }

  /** An array or object that `get` found at a non-empty path can be written
      back to the same path: every node on the way exists, and the last
      parent is an object, or an array holding it at an index. */
  lemma ContainerFoundIsWritable(tree: Value, path: string)
    requires path != ""
    requires Lookup(tree, path).Arr? || Lookup(tree, path).Obj?
    ensures forall v :: Write(tree, path, v).Ok?
  {
    forall v ensures Write(tree, path, v).Ok? {
      FoundIsWritable(tree, Split(path, '.'), v);
    }
  }

  lemma {:induction false} FoundIsWritable(root: Value, parts: seq<string>, v: Value)
    requires |parts| >= 1
    requires GetPath(root, parts).Arr? || GetPath(root, parts).Obj?
    ensures SetPath(root, parts, v).Ok?
    decreases |parts|
  {
    var child := Prop(root, parts[0]);
    if |parts| == 1 {
      assert GetPath(child, parts[1..]) == child;
    } else {
      if !child.Obj? && !child.Arr? {
        NoContainerBelowPrimitive(child, parts[1..]);
      }
      FoundIsWritable(child, parts[1..], v);
    }
    assert root.Obj? || (root.Arr? && ParseIndex(parts[0]).Some? && ParseIndex(parts[0]).value <= |root.items|);
  }

  /** Below a primitive value the walk only meets primitives. */
  lemma {:induction false} NoContainerBelowPrimitive(v: Value, parts: seq<string>)
    requires !v.Obj? && !v.Arr?
    ensures !GetPath(v, parts).Obj? && !GetPath(v, parts).Arr?
    decreases |parts|
  {
    if |parts| > 0 && !Nullish(v) {
      NoContainerBelowPrimitive(Prop(v, parts[0]), parts[1..]);
    }
  }
}
