/**
 * The stack of loaded plugins in the master process.
 *
 * The C record holds an array `plugins` of `size` slots and the index
 * `max_idx` of the top entry (-1 when empty). Here the array is `slots`,
 * whose length is `size`; a slot is None while the memory behind it was
 * never written. A NULL `dlopen` handle is 0.
 */
module PluginStack {
  import opened Wrappers

  /** A loaded plugin: its `dlopen` handle (0 for NULL) and its name. */
  datatype Plugin = Plugin(handle: nat, name: string)

  /** The allocated slots and the index of the top entry. */
  datatype Stack = Stack(slots: seq<Option<Plugin>>, maxIdx: int)

  /**
   * What every operation keeps: the top index lies in [-1, size), every slot
   * up to it holds a plugin, and the slots ever written form a prefix.
   */
  predicate Valid(s: Stack) {
    && -1 <= s.maxIdx < |s.slots|
    && (forall i | 0 <= i <= s.maxIdx :: s.slots[i].Some?)
    && (forall i, j | 0 <= i < j < |s.slots| :: s.slots[j].Some? ==> s.slots[i].Some?)
  }

  /** The plugins on the stack, bottom first. */
  function Contents(s: Stack): (c: seq<Plugin>)
    requires Valid(s)
    ensures |c| == s.maxIdx + 1
  {
    seq(s.maxIdx + 1, i requires 0 <= i <= s.maxIdx && Valid(s) => s.slots[i].value)
  }

  /** `init_plugins_stack`: nothing on it and no slot counted. The `calloc`ed boot array is replaced at the first push. */
  function Init(bootSize: int): (s: Stack)
    ensures Valid(s) && Contents(s) == [] && |s.slots| == 0 && s.maxIdx == -1
  {
    Stack([], -1)
  }

  /** The capacity after growth, `(int)(size * 1.1 + 1)` in the C code. */
  function Grow(size: nat): (n: nat)
    ensures n > size
  {
    size * 11 / 10 + 1
  }

  /** `push_plugin`: grows the array when it is full, then writes the new top. Always returns 0. */
  function Push(s: Stack, handle: nat, name: string): (r: (int, Stack))
    requires Valid(s)
    ensures r.0 == 0 && Valid(r.1)
    ensures Contents(r.1) == Contents(s) + [Plugin(handle, name)]
    ensures r.1.maxIdx == s.maxIdx + 1 < |r.1.slots|
    ensures |r.1.slots| > |s.slots| <==> s.maxIdx == |s.slots| - 1
    ensures |r.1.slots| >= |s.slots|
    ensures forall i | 0 <= i < |s.slots| && i != s.maxIdx + 1 :: r.1.slots[i] == s.slots[i]
  {
    var slots := if s.maxIdx == |s.slots| - 1 then s.slots + seq(Grow(|s.slots|) - |s.slots|, _ => None) else s.slots;
    var t := Stack(slots[s.maxIdx + 1 := Some(Plugin(handle, name))], s.maxIdx + 1);
    assert Valid(t) by {
      forall i, j | 0 <= i < j < |t.slots| && t.slots[j].Some? ensures t.slots[i].Some? {
        if j != s.maxIdx + 1 && i != s.maxIdx + 1 {
          assert slots[j].Some?;
          assert j < |s.slots|;
        }
      }
    }
    (0, t)
  }

  /** The result of `pop_plugin` as written: reading `plugins[-1]` is out of bounds. */
  datatype PopResult = Popped(plugin: Option<Plugin>, rest: Stack) | OutOfBounds

  /**
   * `pop_plugin` as written: it tests `size == 0` for emptiness, but `size`
   * counts slots, not entries, so once every entry is popped it reads the
   * slot before the first.
   */
  function PopAsWritten(s: Stack): (r: PopResult)
    requires Valid(s)
    ensures r.OutOfBounds? <==> |s.slots| > 0 && s.maxIdx == -1
  {
    if |s.slots| == 0 then Popped(None, s)
    else if s.maxIdx < 0 then OutOfBounds
    else if s.slots[s.maxIdx].value.handle == 0 then Popped(None, s)
    else Popped(Some(s.slots[s.maxIdx].value), s.(maxIdx := s.maxIdx - 1))
  }

  /**
   * `pop_plugin` with the emptiness test on `max_idx`: the top entry and the
   * stack without it, or `{NULL, NULL}` and the stack unchanged when it is
   * empty or its top has a NULL handle.
   */
  function Pop(s: Stack): (r: (Option<Plugin>, Stack))
    requires Valid(s)
    ensures Valid(r.1)
    ensures r.0.Some? <==> |Contents(s)| > 0 && Contents(s)[|Contents(s)| - 1].handle != 0
    ensures r.0.Some? ==> Contents(s) == Contents(r.1) + [r.0.value] && r.1.slots == s.slots
    ensures r.0.None? ==> r.1 == s
  {
    if s.maxIdx < 0 then (None, s)
    else if s.slots[s.maxIdx].value.handle == 0 then (None, s)
    else
      var t := s.(maxIdx := s.maxIdx - 1);
      assert Contents(s) == Contents(t) + [s.slots[s.maxIdx].value];
      (Some(s.slots[s.maxIdx].value), t)
  }

  /** Wherever the as-written pop does not fault, it agrees with the corrected one. */
  lemma {:induction false} PopAgrees(s: Stack)
    requires Valid(s)
    ensures !PopAsWritten(s).OutOfBounds? ==> PopAsWritten(s) == Popped(Pop(s).0, Pop(s).1)
  {
  }

  /** Pushing a plugin with a non-NULL handle and popping gives it back and restores the stack's entries. */
  lemma {:induction false} PushThenPop(s: Stack, handle: nat, name: string)
    requires Valid(s) && handle != 0
    ensures Pop(Push(s, handle, name).1).0 == Some(Plugin(handle, name))
    ensures Contents(Pop(Push(s, handle, name).1).1) == Contents(s)
    ensures Pop(Push(s, handle, name).1).1.maxIdx == s.maxIdx
  {
    var t := Push(s, handle, name).1;
    assert Contents(t)[|Contents(t)| - 1] == Plugin(handle, name);
    var u := Pop(t).1;
    assert Contents(t) == Contents(u) + [Plugin(handle, name)];
    assert Contents(t) == Contents(s) + [Plugin(handle, name)];
  }

  /** An empty stack pops `{NULL, NULL}` and stays as it is. */
  lemma {:induction false} PopEmpty(s: Stack)
    requires Valid(s) && Contents(s) == []
    ensures Pop(s) == (None, s)
  {
  }

  /** Push one plugin on a fresh stack and pop it: the next pop as written reads `plugins[-1]`. */
  lemma {:induction false} PopAfterDrain(bootSize: int, handle: nat, name: string)
    requires handle != 0
    ensures PopAsWritten(Pop(Push(Init(bootSize), handle, name).1).1) == OutOfBounds
    ensures Pop(Pop(Push(Init(bootSize), handle, name).1).1).0 == None
  {
    PushThenPop(Init(bootSize), handle, name);
  }

  /** The index of the first plugin called `name`. */
  function FirstNamed(c: seq<Plugin>, name: string): (r: Option<nat>)
    ensures r.Some? ==> r.value < |c| && c[r.value].name == name &&
                        forall j | 0 <= j < r.value :: c[j].name != name
    ensures r.None? ==> forall j | 0 <= j < |c| :: c[j].name != name
  {
    if |c| == 0 then None
    else if c[0].name == name then Some(0)
    else match FirstNamed(c[1..], name)
      case None => None
      case Some(i) => Some(i + 1)
  }

  /** `get_plugin` with the scan bounded by `max_idx`: the lowest entry on the stack with that name. */
  function Get(s: Stack, name: string): (r: Option<Plugin>)
    requires Valid(s)
    ensures r.Some? ==> r.value.name == name && r.value in Contents(s)
    ensures r.Some? ==> exists i | 0 <= i < |Contents(s)| ::
                          Contents(s)[i] == r.value && forall j | 0 <= j < i :: Contents(s)[j].name != name
    ensures r.None? <==> forall j | 0 <= j < |Contents(s)| :: Contents(s)[j].name != name
  {
    match FirstNamed(Contents(s), name)
    case None => None
    case Some(i) => Some(Contents(s)[i])
  }

  /** The loop of `get_plugin`, bounded by `max_idx`. */
  method GetPlugin(s: Stack, name: string) returns (r: Option<Plugin>)
    requires Valid(s)
    ensures r == Get(s, name)
  {
    var i := 0;
    while i <= s.maxIdx
      invariant 0 <= i <= s.maxIdx + 1
      invariant forall j | 0 <= j < i :: Contents(s)[j].name != name
    {
      if s.slots[i].value.name == name {
        FirstNamedAt(Contents(s), name, i);
        assert s.slots[i] == Some(Contents(s)[i]);
        return s.slots[i];
      }
      i := i + 1;
    }
    FirstNamedNone(Contents(s), name);
    r := None;
  }

  /** An entry with the name and none before it is the first one. */
  lemma {:induction false} FirstNamedAt(c: seq<Plugin>, name: string, i: nat)
    requires i < |c| && c[i].name == name && forall j | 0 <= j < i :: c[j].name != name
    ensures FirstNamed(c, name) == Some(i)
  {
    if i > 0 {
      assert c[0].name != name;
      assert forall j | 0 <= j < i - 1 :: c[1..][j] == c[j + 1];
      FirstNamedAt(c[1..], name, i - 1);
    }
  }

  /** No entry with the name: no first one. */
  lemma {:induction false} FirstNamedNone(c: seq<Plugin>, name: string)
    requires forall j | 0 <= j < |c| :: c[j].name != name
    ensures FirstNamed(c, name) == None
  {
    if |c| > 0 {
      assert c[0].name != name;
      assert forall j | 0 <= j < |c| - 1 :: c[1..][j] == c[j + 1];
      FirstNamedNone(c[1..], name);
    }
  }

  /** The result of `get_plugin` as written: strcmp on a slot never written is undefined. */
  datatype Lookup = Found(plugin: Plugin) | NotFound | Undefined

  /** `get_plugin` as written: the scan runs over all `size` slots, from slot `from` on. */
  function ScanAsWritten(slots: seq<Option<Plugin>>, name: string, from: nat): (r: Lookup)
    requires from <= |slots|
    ensures r.Found? ==> r.plugin.name == name && Some(r.plugin) in slots[from..]
    decreases |slots| - from
  {
    if from == |slots| then NotFound
    else if slots[from].None? then Undefined
    else if slots[from].value.name == name then Found(slots[from].value)
    else ScanAsWritten(slots, name, from + 1)
  }

  /** `get_plugin` as written. */
  function GetAsWritten(s: Stack, name: string): Lookup {
    ScanAsWritten(s.slots, name, 0)
  }

  /**
   * When every slot holds an entry of the stack, that is, nothing was popped
   * and the array is full, the as-written scan agrees with the corrected one.
   */
  lemma {:induction false} GetAgreesWhenFull(s: Stack, name: string)
    requires Valid(s) && s.maxIdx == |s.slots| - 1
    ensures GetAsWritten(s, name) == (if Get(s, name).Some? then Found(Get(s, name).value) else NotFound)
  {
    ScanFull(s, name, 0);
  }

  /** The as-written scan from `from` on a full stack is the first match at or after `from`. */
  lemma {:induction false} ScanFull(s: Stack, name: string, from: nat)
    requires Valid(s) && s.maxIdx == |s.slots| - 1 && from <= |s.slots|
    ensures ScanAsWritten(s.slots, name, from) ==
            (if FirstNamed(Contents(s)[from..], name).Some?
             then Found(Contents(s)[from + FirstNamed(Contents(s)[from..], name).value])
             else NotFound)
    decreases |s.slots| - from
  {
    var c := Contents(s);
    if from < |s.slots| {
      ScanFull(s, name, from + 1);
      assert c[from..][1..] == c[from + 1..];
      assert c[from..][0] == c[from];
    }
  }

  /**
   * Push one plugin on a fresh stack and pop it: as written, `get_plugin`
   * still finds it, although it is no longer on the stack.
   */
  lemma {:induction false} GetFindsPopped(bootSize: int, handle: nat, name: string)
    requires handle != 0
    ensures GetAsWritten(Pop(Push(Init(bootSize), handle, name).1).1, name) == Found(Plugin(handle, name))
    ensures Get(Pop(Push(Init(bootSize), handle, name).1).1, name) == None
  {
    var t := Push(Init(bootSize), handle, name).1;
    PushThenPop(Init(bootSize), handle, name);
    assert t.slots[0] == Some(Plugin(handle, name));
  }
}
