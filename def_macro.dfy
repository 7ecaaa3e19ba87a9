/** `$defMacro({ props, methods })`: an object whose properties live in a
    replaceable `props` map and whose methods, fixed at creation, receive the
    object itself as `self`. Reading a method name yields the method; writing
    one is refused. */
module DefMacro {
  import opened Js

  /** A macro method: from the props it reads through `self` and its
      arguments, the assignments it makes through `self` (in order) and the
      value it returns. */
  type Body = (map<string, Value>, seq<Value>) -> (seq<(string, Value)>, Value)

  /** What reading a property of the macro gives. */
  datatype Property = BoundMethod(name: string) | Prop(value: Value)

  /** The TypeError a strict-mode assignment raises when the `set` trap
      answers `false`. */
  const SetRefused: Value := ErrorObject("TypeError", "'set' on proxy: trap returned falsish")

  /** The props after a sequence of assignments, and whether one of them was
      refused (the assignments after a refused one do not happen). */
  function ApplyWrites(props: map<string, Value>, methodNames: set<string>, writes: seq<(string, Value)>): (out: (map<string, Value>, bool))
    ensures out.1 <==> exists i :: 0 <= i < |writes| && writes[i].0 in methodNames
    ensures props.Keys <= out.0.Keys
    ensures forall k :: k in out.0 && k !in props ==> exists i :: 0 <= i < |writes| && writes[i].0 == k
    decreases |writes|
  {
    if |writes| == 0 then (props, false)
    else if writes[0].0 in methodNames then (props, true)
    else ApplyWrites(props[writes[0].0 := writes[0].1], methodNames, writes[1..])
  }

  /** The value the last assignment to `name` wrote, if any. */
  function LastWrite(writes: seq<(string, Value)>, name: string): OrUndefined<Value>
    decreases |writes|
  {
    if |writes| == 0 then Undef
    else if writes[|writes| - 1].0 == name then Def(writes[|writes| - 1].1)
    else LastWrite(writes[..|writes| - 1], name)
  }

  /** Assignments to names that are not methods all take effect: each name
      ends with the last value written to it, and names not written keep
      their values. */
  lemma {:induction false} WritesVisible(props: map<string, Value>, methodNames: set<string>, writes: seq<(string, Value)>, name: string)
    requires forall i :: 0 <= i < |writes| ==> writes[i].0 !in methodNames
    ensures !ApplyWrites(props, methodNames, writes).1
    ensures LastWrite(writes, name).Def? ==>
      name in ApplyWrites(props, methodNames, writes).0 &&
      ApplyWrites(props, methodNames, writes).0[name] == LastWrite(writes, name).value
    ensures LastWrite(writes, name).Undef? ==>
      (name in ApplyWrites(props, methodNames, writes).0 <==> name in props) &&
      (name in props ==> ApplyWrites(props, methodNames, writes).0[name] == props[name])
    decreases |writes|
  {
    if |writes| > 0 {
      var last := writes[|writes| - 1];
      var init := writes[..|writes| - 1];
      WritesSplit(props, methodNames, init, last);
      assert init + [last] == writes;
      WritesVisible(props, methodNames, init, name);
    }
  }

  /** Applying writes then one more is applying the extended sequence. */
  lemma {:induction false} WritesSplit(props: map<string, Value>, methodNames: set<string>, init: seq<(string, Value)>, last: (string, Value))
    requires forall i :: 0 <= i < |init| ==> init[i].0 !in methodNames
    requires last.0 !in methodNames
    ensures !ApplyWrites(props, methodNames, init).1
    ensures ApplyWrites(props, methodNames, init + [last]) ==
      (ApplyWrites(props, methodNames, init).0[last.0 := last.1], false)
    decreases |init|
  {
    if |init| == 0 {
      assert init + [last] == [last];
    } else {
      assert (init + [last])[1..] == init[1..] + [last];
      WritesSplit(props[init[0].0 := init[0].1], methodNames, init[1..], last);
    }
  }

  class Macro {
    /** The property values, replaced wholesale by every accepted assignment. */
    var props: map<string, Value>
    /** The methods, fixed when the macro is made. */
    const methods: map<string, Body>

    constructor(props0: map<string, Value>, methods0: map<string, Body>)
      ensures props == props0 && methods == methods0
    {
      props := props0;
      methods := methods0;
    }

    /** The `get` trap: a method name gives the method bound to the macro,
        even when a prop has the same name; any other name gives the prop's
        value, `undefined` when there is none. */
    function Get(name: string): (p: Property)
      reads this
      ensures p.BoundMethod? <==> name in methods
      ensures p.BoundMethod? ==> p.name == name
      ensures p.Prop? ==> p.value == (if name in props then props[name] else Undefined)
    {
      if name in methods then BoundMethod(name)
      else Prop(if name in props then props[name] else Undefined)
    }

    /** The `set` trap: refused for a method name, leaving the props as they
        were; otherwise the props are replaced by a copy holding the new
        value. */
    method Set(name: string, newValue: Value) returns (ok: bool)
      modifies this
      ensures ok <==> name !in methods
      ensures ok ==> props == old(props)[name := newValue]
      ensures !ok ==> props == old(props)
    {
      if name in methods {
        return false;
      }
      props := props[name := newValue];
      return true;
    }

    /** Calling `macro.name(...args)`: a method runs with the macro as `self`;
        its assignments go through the `set` trap one by one, and the first
        refused one throws. Any other name is not callable. */
    method Call(name: string, args: seq<Value>) returns (r: Completion<Value, Value>)
      modifies this
      ensures name !in methods ==> r == Threw(NotAFunction) && props == old(props)
      ensures name in methods ==>
        var (writes, result) := methods[name](old(props), args);
        var (after, refused) := ApplyWrites(old(props), methods.Keys, writes);
        props == after && r == (if refused then Threw(SetRefused) else Normal(result))
    {
      if name !in methods {
        return Threw(NotAFunction);
      }
      var (writes, result) := methods[name](props, args);
      ghost var start := props;
      var i := 0;
      while i < |writes|
        invariant i <= |writes|
        invariant ApplyWrites(start, methods.Keys, writes) == ApplyWrites(props, methods.Keys, writes[i..])
      {
        var ok := Set(writes[i].0, writes[i].1);
        if !ok {
          return Threw(SetRefused);
        }
        assert writes[i..][1..] == writes[i + 1..];
        i := i + 1;
      }
      return Normal(result);
    }
  }

  /** The repository macro of the tests: a `table` prop, and the methods
      `getTable`, `setTable` and `read`. */
  function Repository(): map<string, Body> {
    map[
      "getTable" := (self: map<string, Value>, _: seq<Value>) =>
        ([], if "table" in self then self["table"] else Undefined),
      "setTable" := (_: map<string, Value>, args: seq<Value>) =>
        ([("table", if |args| > 0 then args[0] else Undefined)], Undefined),
      "read" := (self: map<string, Value>, args: seq<Value>) =>
        ([], Obj(map["id" := (if |args| > 0 then args[0] else Undefined),
                     "name" := Str("John Doe"),
                     "table" := (if "table" in self then self["table"] else Undefined)]))
    ]
  }

  /** The tests' sequence on a repository made for "users": the table reads
      "users", `getTable()` returns it, and after `setTable("cars")` the table
      reads "cars". */
  method SelfMutability() returns (before: Property, got: Completion<Value, Value>, after: Property)
    ensures before == Prop(Str("users"))
    ensures got == Normal(Str("users"))
    ensures after == Prop(Str("cars"))
  {
    var m := new Macro(map["table" := Str("users")], Repository());
    before := m.Get("table");
    got := m.Call("getTable", []);
    var _ := m.Call("setTable", [Str("cars")]);
    after := m.Get("table");
  }
}
