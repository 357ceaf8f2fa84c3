/** `BotClient.loadInteractions` (src/classes/BotClient.ts): for every
    interaction file, import it, construct its default export, call its
    `init` if it has one, and register the instance under the name of each
    of its builders. The files listed and the classes they export are the
    input; a class is described by what loading sees of it. */
module Registry {
  import opened Common

  /** Which of the optional handler methods an instance has. */
  datatype Handlers = Handlers(chat: bool, autocomplete: bool, contextMenu: bool)

  /** One interaction file and its default export: whether
      `await import(file)` rejects, the class name, its static `builders`
      (`None` when undefined or null), whether `new InteractionClass(this)`
      throws (as it does when the file has no default export), whether it
      has an `init`, and its handlers. */
  datatype Class = Class(
    importFails: bool,
    name: string,
    builders: Option<seq<string>>,
    constructorThrows: bool,
    hasInit: bool,
    handlers: Handlers)

  /** The single instance constructed from the file at position `file`. */
  datatype Instance = Instance(file: nat, handlers: Handlers)

  /** What loading does besides filling the map, in order: the warning for
      a file that is not an interaction, the call of `init`, and each
      `interactions.set`. */
  datatype Effect =
    | Skipped(file: nat)
    | Initialised(file: nat)
    | Registered(name: string, file: nat)

  datatype Client = Client(interactions: map<string, Instance>, log: seq<Effect>)

  /** Line 14: the map is empty once the client is constructed. */
  const Fresh: Client := Client(map[], [])

  /** Line 35: the builder names, or the class name with `-nobuilders`
      when `builders` is undefined or null. An empty array stays empty. */
  function Names(c: Class): seq<string> {
    match c.builders
    case Some(ns) => ns
    case None => [c.name + "-nobuilders"]
  }

  /** Lines 35-37: `interactions.set(name, instance)` for each name, first
      to last. */
  function Register(m: map<string, Instance>, names: seq<string>, inst: Instance): (r: map<string, Instance>)
    ensures r.Keys == m.Keys + set n | n in names
    ensures forall n :: n in names ==> n in r && r[n] == inst
    ensures forall n :: n in m && n !in names ==> r[n] == m[n]
    decreases |names|
  {
    if |names| == 0 then m
    else Register(m, names[..|names| - 1], inst)[Last(names) := inst]
  }

  /** The effects of loading one file, in order. */
  function Entries(c: Class, file: nat): seq<Effect> {
    if c.constructorThrows then [Skipped(file)]
    else
      var names := Names(c);
      (if c.hasInit then [Initialised(file)] else [])
      + seq(|names|, k requires 0 <= k < |names| => Registered(names[k], file))
  }

  /** Lines 21-37 for the file at position `file`. */
  function LoadOne(client: Client, file: nat, c: Class): (r: Client)
    ensures r.log == client.log + Entries(c, file)
    ensures c.constructorThrows ==> r.interactions == client.interactions
    ensures !c.constructorThrows ==>
      && r.interactions.Keys == client.interactions.Keys + set n | n in Names(c)
      && (forall n :: n in Names(c) ==> n in r.interactions && r.interactions[n] == Instance(file, c.handlers))
    ensures forall n :: n in client.interactions && (c.constructorThrows || n !in Names(c)) ==>
      n in r.interactions && r.interactions[n] == client.interactions[n]
  {
    if c.constructorThrows then client.(log := client.log + [Skipped(file)])
    else
      Client(Register(client.interactions, Names(c), Instance(file, c.handlers)),
             client.log + Entries(c, file))
  }

  /** The loop of lines 20-38 over files whose imports all succeed, in the
      order `listFiles` returns them; a file's position names its
      instance. */
  function Load(classes: seq<Class>): Client
    decreases |classes|
  {
    if |classes| == 0 then Fresh
    else LoadOne(Load(classes[..|classes| - 1]), |classes| - 1, Last(classes))
  }

  /** The client once `loadInteractions` settles, and whether its promise
      rejected. */
  datatype Loading = Loading(client: Client, rejected: bool)

  /** Lines 17-39: the import at line 21 is outside the `try`, so the first
      file whose import rejects ends the loop and rejects the promise; what
      earlier files registered stays in the map. */
  function LoadInteractions(classes: seq<Class>): (r: Loading)
    ensures r.rejected <==> exists j :: 0 <= j < |classes| && classes[j].importFails
    decreases |classes|
  {
    if |classes| == 0 then Loading(Fresh, false)
    else
      var init := classes[..|classes| - 1];
      var prev := LoadInteractions(init);
      assert forall j :: 0 <= j < |init| ==> init[j] == classes[j];
      if prev.rejected then prev
      else if Last(classes).importFails then prev.(rejected := true)
      else Loading(LoadOne(prev.client, |classes| - 1, Last(classes)), false)
  }

  /** The position of the first file whose import rejects, or the number of
      files when none does. */
  function FirstBroken(classes: seq<Class>): (n: nat)
    ensures n <= |classes|
    ensures forall j :: 0 <= j < n ==> !classes[j].importFails
    ensures n < |classes| ==> classes[n].importFails
    decreases |classes|
  {
    if |classes| == 0 then 0
    else
      var init := classes[..|classes| - 1];
      var n := FirstBroken(init);
      assert forall j :: 0 <= j < |init| ==> init[j] == classes[j];
      if n < |init| then n
      else if Last(classes).importFails then |init|
      else |classes|
  }

  /** Lines 20-21: loading registers exactly what the files before the
      first failing import register, and rejects when there is one; with
      no failing import it is `Load` over all the files. */
  lemma {:induction false} LoadStopsAtBrokenImport(classes: seq<Class>)
    ensures LoadInteractions(classes).client == Load(classes[..FirstBroken(classes)])
    ensures LoadInteractions(classes).rejected <==> FirstBroken(classes) < |classes|
    ensures (forall j :: 0 <= j < |classes| ==> !classes[j].importFails) ==>
      LoadInteractions(classes) == Loading(Load(classes), false)
    decreases |classes|
  {
    if |classes| > 0 {
      var init := classes[..|classes| - 1];
      LoadStopsAtBrokenImport(init);
      var n := FirstBroken(init);
      if n < |init| {
        assert classes[..n] == init[..n];
      } else {
        assert init[..n] == init;
        assert classes[..|classes|] == classes;
      }
    }
  }

  // ---------------------------------------------------------------------
  // The map as a reference definition
  // ---------------------------------------------------------------------

  /** The class is constructed and declares `name`. */
  predicate Binds(c: Class, name: string) {
    !c.constructorThrows && name in Names(c)
  }

  /** The class at `file` was constructed and declares `name`. */
  predicate Declares(classes: seq<Class>, file: nat, name: string) {
    file < |classes| && Binds(classes[file], name)
  }

  /** The last file that declares `name`, if any. */
  function LastDeclarer(classes: seq<Class>, name: string): (r: Option<nat>)
    ensures r.Some? ==> Declares(classes, r.value, name)
    ensures r.Some? ==> forall j :: r.value < j < |classes| ==> !Binds(classes[j], name)
    ensures r.None? ==> forall j :: 0 <= j < |classes| ==> !Binds(classes[j], name)
    decreases |classes|
  {
    if |classes| == 0 then None
    else if Binds(Last(classes), name) then Some(|classes| - 1)
    else
      var init := classes[..|classes| - 1];
      assert forall j :: 0 <= j < |init| ==> init[j] == classes[j];
      LastDeclarer(init, name)
  }

  /** Lines 20-37: a name is registered exactly when some constructed class
      declares it, and it is bound to the instance of the last such file:
      a later file overwrites an earlier one. */
  lemma {:induction false} LoadIsLastDeclarer(classes: seq<Class>, name: string)
    ensures name in Load(classes).interactions <==> LastDeclarer(classes, name).Some?
    ensures name in Load(classes).interactions ==>
      var f := LastDeclarer(classes, name).value;
      Load(classes).interactions[name] == Instance(f, classes[f].handlers)
    decreases |classes|
  {
    if |classes| > 0 {
      var init := classes[..|classes| - 1];
      LoadIsLastDeclarer(init, name);
      var n := |classes| - 1;
      if !Declares(classes, n, name) {
        assert LastDeclarer(classes, name) == LastDeclarer(init, name);
        if LastDeclarer(init, name).Some? {
          var f := LastDeclarer(init, name).value;
          assert classes[f] == init[f];
        }
      }
    }
  }

  /** Line 14 with lines 20-37: nothing loaded, nothing registered. */
  lemma LoadNothing()
    ensures Load([]).interactions == map[]
    ensures Load([]).log == []
  {
  }

  /** Lines 24-29: a class whose constructor throws is skipped with a
      warning and changes no entry of the map. */
  lemma ThrowingClassSkipped(classes: seq<Class>, c: Class)
    requires c.constructorThrows
    ensures Load(classes + [c]).interactions == Load(classes).interactions
    ensures Load(classes + [c]).log == Load(classes).log + [Skipped(|classes|)]
  {
    assert (classes + [c])[..|classes|] == classes;
  }

  /** Line 35: a class without `builders` is registered under its class
      name followed by `-nobuilders`; an empty `builders` array registers
      nothing. */
  lemma NoBuilders(client: Client, file: nat, c: Class)
    requires !c.constructorThrows
    ensures c.builders.None? ==>
      LoadOne(client, file, c).interactions == client.interactions[c.name + "-nobuilders" := Instance(file, c.handlers)]
    ensures c.builders == Some([]) ==> LoadOne(client, file, c).interactions == client.interactions
  {
    var r := LoadOne(client, file, c);
    if c.builders.None? {
      assert Names(c) == [c.name + "-nobuilders"];
      assert r.interactions.Keys == client.interactions.Keys + {c.name + "-nobuilders"};
    }
  }

  /** Lines 35-37: every name a constructed class declares is bound to the
      same single instance, unless a later file took the name. */
  lemma SameInstance(classes: seq<Class>, file: nat, n1: string, n2: string)
    requires Declares(classes, file, n1) && Declares(classes, file, n2)
    requires forall j :: file < j < |classes| ==> !Binds(classes[j], n1) && !Binds(classes[j], n2)
    ensures n1 in Load(classes).interactions && n2 in Load(classes).interactions
    ensures Load(classes).interactions[n1] == Load(classes).interactions[n2] == Instance(file, classes[file].handlers)
  {
    LoadIsLastDeclarer(classes, n1);
    LoadIsLastDeclarer(classes, n2);
  }

  // ---------------------------------------------------------------------
  // The order of effects
  // ---------------------------------------------------------------------

  function FileOf(e: Effect): nat {
    match e
    case Skipped(f) => f
    case Initialised(f) => f
    case Registered(_, f) => f
  }

  /** The effects of loading the files, file after file. */
  function Log(classes: seq<Class>): seq<Effect>
    decreases |classes|
  {
    if |classes| == 0 then []
    else Log(classes[..|classes| - 1]) + Entries(Last(classes), |classes| - 1)
  }

  /** What loading records is the effects of every file in turn. */
  lemma {:induction false} LoadLog(classes: seq<Class>)
    ensures Load(classes).log == Log(classes)
    decreases |classes|
  {
    if |classes| > 0 {
      LoadLog(classes[..|classes| - 1]);
    }
  }

  lemma {:induction false} LogFilesBelow(classes: seq<Class>)
    ensures forall k :: 0 <= k < |Log(classes)| ==> FileOf(Log(classes)[k]) < |classes|
    decreases |classes|
  {
    if |classes| > 0 {
      var init := classes[..|classes| - 1];
      LogFilesBelow(init);
      var prev := Log(init);
      var e := Entries(Last(classes), |classes| - 1);
      forall k | 0 <= k < |prev + e|
        ensures FileOf((prev + e)[k]) < |classes|
      {
        if k >= |prev| {
          assert (prev + e)[k] == e[k - |prev|];
        }
      }
    }
  }

  /** Every effect of loading names a file already read. */
  lemma LogFiles(classes: seq<Class>)
    ensures forall k :: 0 <= k < |Load(classes).log| ==> FileOf(Load(classes).log[k]) < |classes|
  {
    LoadLog(classes);
    LogFilesBelow(classes);
  }

  /** Within one file's effects, a registration comes from a constructed
      class, names one of its builders, and follows the call of `init`. */
  lemma EntriesOrder(c: Class, file: nat, i: nat)
    requires i < |Entries(c, file)| && Entries(c, file)[i].Registered?
    ensures !c.constructorThrows
    ensures Entries(c, file)[i].file == file && Entries(c, file)[i].name in Names(c)
    ensures c.hasInit ==> 0 < i && Entries(c, file)[0] == Initialised(file)
  {
    var e := Entries(c, file);
    var names := Names(c);
    var off := if c.hasInit then 1 else 0;
    assert !c.constructorThrows;
    assert e[i] == Registered(names[i - off], file);
  }

  /** Within one file, the call of `init` is the first effect. */
  lemma InitFirst(c: Class, file: nat, i: nat)
    requires i < |Entries(c, file)| && Entries(c, file)[i].Initialised?
    ensures i == 0 && Entries(c, file)[i].file == file
  {
  }

  lemma {:induction false} LogInitBefore(classes: seq<Class>, j: nat)
    requires j < |Log(classes)| && Log(classes)[j].Registered?
    ensures var f := Log(classes)[j].file;
      && Declares(classes, f, Log(classes)[j].name)
      && (classes[f].hasInit ==> exists k :: 0 <= k < j && Log(classes)[k] == Initialised(f))
    decreases |classes|
  {
    var init := classes[..|classes| - 1];
    var prev := Log(init);
    var e := Entries(Last(classes), |classes| - 1);
    var log := Log(classes);
    assert log == prev + e;
    if j < |prev| {
      assert log[j] == prev[j];
      LogInitBefore(init, j);
      var f := prev[j].file;
      assert classes[f] == init[f];
      if classes[f].hasInit {
        var k :| 0 <= k < j && prev[k] == Initialised(f);
        assert log[k] == prev[k];
      }
    } else {
      assert log[j] == e[j - |prev|];
      EntriesOrder(Last(classes), |classes| - 1, j - |prev|);
      if Last(classes).hasInit {
        assert log[|prev|] == e[0];
      }
    }
  }

  /** Lines 31-37: `init` of a constructed instance is called before its
      names are registered. */
  lemma InitBeforeRegistration(classes: seq<Class>, j: nat)
    requires j < |Load(classes).log| && Load(classes).log[j].Registered?
    ensures var f := Load(classes).log[j].file;
      && Declares(classes, f, Load(classes).log[j].name)
      && (classes[f].hasInit ==> exists k :: 0 <= k < j && Load(classes).log[k] == Initialised(f))
  {
    LoadLog(classes);
    LogInitBefore(classes, j);
  }

  lemma {:induction false} LogInitOnce(classes: seq<Class>, k1: nat, k2: nat)
    requires k1 < k2 < |Log(classes)|
    requires Log(classes)[k1].Initialised? && Log(classes)[k2].Initialised?
    ensures Log(classes)[k1].file != Log(classes)[k2].file
    decreases |classes|
  {
    var init := classes[..|classes| - 1];
    var prev := Log(init);
    var e := Entries(Last(classes), |classes| - 1);
    assert Log(classes) == prev + e;
    if k2 < |prev| {
      assert Log(classes)[k1] == prev[k1] && Log(classes)[k2] == prev[k2];
      LogInitOnce(init, k1, k2);
    } else {
      assert Log(classes)[k2] == e[k2 - |prev|];
      InitFirst(Last(classes), |classes| - 1, k2 - |prev|);
      LogFilesBelow(init);
      assert Log(classes)[k1] == prev[k1];
      assert FileOf(prev[k1]) < |classes| - 1;
    }
  }

  /** Line 31: `init` is called at most once per file. */
  lemma InitOnce(classes: seq<Class>, k1: nat, k2: nat)
    requires k1 < k2 < |Load(classes).log|
    requires Load(classes).log[k1].Initialised? && Load(classes).log[k2].Initialised?
    ensures Load(classes).log[k1].file != Load(classes).log[k2].file
  {
    LoadLog(classes);
    LogInitOnce(classes, k1, k2);
  }

  /** Line 31: a constructed class with an `init` has it called. */
  lemma InitCalled(classes: seq<Class>, c: Class)
    requires !c.constructorThrows && c.hasInit
    ensures Initialised(|classes|) in Load(classes + [c]).log
  {
    assert (classes + [c])[..|classes|] == classes;
    var e := Entries(c, |classes|);
    assert e[0] == Initialised(|classes|);
    assert Load(classes + [c]).log == Load(classes).log + e;
    assert Load(classes + [c]).log[|Load(classes).log|] == e[0];
  }
}
