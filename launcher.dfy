/**
 * Bootstrap: builds the entries repository of the container jar, registers the
 * URL stream handler factory that serves it, scans it, creates the
 * InsideJarClassLoader over it, loads the kernel class and invokes its main
 * method with that loader as the thread's context class loader; at the end it
 * clears its diagnostic properties and deals with the threads left behind by
 * the kernel.
 *
 * Process-wide JVM state (system properties, the current thread's context class
 * loader, the URL handler factory slot) is the `Jvm` object; `Jvm.events`
 * records the observable actions in order. Everything outside this code
 * (the clock, reflection, the scan, the kernel's main, the thread snapshot) is
 * an `Environment` value given to the run.
 */
module Launcher {
  import opened Wrappers
  import opened JarStrings
  import opened SystemProperties
  import opened Loaders
  import opened Repository
  import opened ClassLoading

  /** The class Bootstrap loads and whose main it invokes. */
  const KernelClass: string := "com.peergreen.kernel.launcher.Kernel"

  /** The package definePackage derives for the kernel class. */
  const KernelPackage: string := "com.peergreen.kernel.launcher"

  lemma KernelPackageName()
    ensures PackageName(KernelClass) == KernelPackage
  {
    PackageNameOfQualified(KernelPackage, "Kernel");
    assert KernelClass == KernelPackage + "." + "Kernel";
  }

  /** The value of URL's process-wide stream handler factory slot. */
  datatype Factory = ForeignFactory | RepositoryFactory(repository: EntriesRepository)

  /** Observable actions, in the order the run performs them. */
  datatype Event =
    | RepositoryCreated(location: string)
    | FactoryRegistered
    | FactoryRejected                      // setURLStreamHandlerFactory threw: a factory was set
    | FactoryReset                         // URL.factory cleared by reflection
    | Scanned
    | PropertySet(name: string, value: string)
    | LoaderCreated(loader: LoaderChain)
    | MainInvoked(context: LoaderChain, args: seq<string>)  // main runs with this context class loader and these arguments
    | ThreadWarned(thread: ThreadRecord)
    | ThreadStopped(thread: ThreadRecord)
    | Exited(status: int)

  /** How entriesRepository.scan() ends; it runs outside any try of load. */
  datatype ScanOutcome =
    | ScanCompletes
    | ScanThrowsBootstrap   // a BootstrapException, the one checked exception load may pass on
    | ScanThrowsUnchecked   // a RuntimeException or Error

  /** How main.invoke ends. */
  datatype InvokeOutcome =
    | MainReturns
    | MainThrowsCaught      // IllegalAccessException, IllegalArgumentException or InvocationTargetException
    | MainThrowsUncaught    // ExceptionInInitializerError from the kernel's static initializer, or
                            // NullPointerException when main is not static

  /** Why a BootstrapException was thrown. */
  datatype Reason = FactoryNotRegistered | ScanFailed | ClassNotLoadable(name: string) | NoMainMethod | InvocationFailed

  /** The unchecked errors that escape start unwrapped. */
  datatype Escape = ScanAborted | LoadFailed(error: LoadError) | MainAborted

  /** What start can throw: a BootstrapException, or an unchecked error. */
  datatype Failure = BootstrapError(reason: Reason) | Unchecked(cause: Escape)

  /** Everything the run learns from outside this code. */
  datatype Environment = Environment(
    location: string,                        // getLocation(): the URL of the bootstrap jar
    factoryResettable: bool,                 // the reflective write of null into URL.factory succeeds
    scan: ScanOutcome,                       // how the repository's scan ends
    catalog: Catalog,                        // what a completed scan finds
    beginAt: int,                            // System.currentTimeMillis() readings
    scanBeginAt: int,
    scanEndAt: int,
    mainInvokeAt: int,
    loaderId: nat,                           // identity of the new InsideJarClassLoader
    ambient: map<string, ClassRecord>,       // classes the parent class loader resolves
    readManifest: string -> ManifestOutcome, // manifest read for each nested jar
    define: DefineOutcome,                   // what defineClass does with the kernel's bytes
    hasMain: bool,                           // getMethod("main", String[].class) succeeds
    main: InvokeOutcome,                     // how main.invoke ends
    contextLeftByMain: LoaderChain,          // context class loader main leaves behind
    threads: seq<ThreadRecord>)              // Thread.getAllStackTraces().keySet() at shutdown

  /** Whether load gets past registering the factory, given whether the slot was taken. */
  predicate Registers(slotTaken: bool, env: Environment) {
    !slotTaken || env.factoryResettable
  }

  /** Whether load gets past the scan, and so creates the class loader. */
  predicate Scans(slotTaken: bool, env: Environment) {
    Registers(slotTaken, env) && env.scan.ScanCompletes?
  }

  /** The InsideJarClassLoader load creates under the context class loader `context`. */
  function LoaderNode(env: Environment, context: LoaderChain): LoaderChain {
    Loader(env.loaderId, context)
  }

  function RegistrationEvents(slotTaken: bool, env: Environment): seq<Event> {
    if !slotTaken then [FactoryRegistered]
    else if env.factoryResettable then [FactoryRejected, FactoryReset, FactoryRegistered]
    else [FactoryRejected]
  }

  /** The actions of load, in order. */
  function LoadEvents(slotTaken: bool, env: Environment, context: LoaderChain): seq<Event> {
    [RepositoryCreated(env.location)] + RegistrationEvents(slotTaken, env) +
    if Scans(slotTaken, env) then
      [Scanned,
       PropertySet(Key(ScanBegin), DecimalString(env.scanBeginAt)),
       PropertySet(Key(ScanEnd), DecimalString(env.scanEndAt)),
       LoaderCreated(LoaderNode(env, context))]
    else []
  }

  /** What loadClass(KernelClass) yields on the freshly created loader. */
  function KernelResult(env: Environment): Result<ClassRecord, Failure> {
    if KernelClass in env.ambient then Success(env.ambient[KernelClass])
    else if KernelClass !in env.catalog.entries then Failure(BootstrapError(ClassNotLoadable(KernelClass)))
    else
      var entry := env.catalog.entries[KernelClass];
      if JarName(entry.location).None? then Failure(Unchecked(LoadFailed(BadLocation(entry.location))))
      else if env.define.Rejects? then Failure(Unchecked(LoadFailed(DefinitionRejected(KernelClass))))
      else Success(ClassRecord(KernelClass, entry.bytes, entry.location))
  }

  /**
   * The new loader's tables and its repository's class entries after
   * loadClass(KernelClass), starting from no packages, no classes and the
   * scanned catalogue.
   */
  function KernelTables(env: Environment): LoaderTables {
    var untouched := LoaderTables(map[], map[], [], env.catalog.entries);
    if KernelClass in env.ambient || KernelClass !in env.catalog.entries then untouched
    else
      var entry := env.catalog.entries[KernelClass];
      match JarName(entry.location)
      case None => untouched
      case Some(jar) =>
        var p := PackageFor(KernelPackage, entry.location, env.readManifest(jar));
        var packages := map[KernelPackage := p];
        if env.define.Rejects? then LoaderTables(packages, map[], [PackageDefined(p)], env.catalog.entries)
        else
          LoaderTables(packages, map[KernelClass := ClassRecord(KernelClass, entry.bytes, entry.location)],
                       [PackageDefined(p), ClassDefined(KernelClass), EntryEvicted(KernelClass)],
                       env.catalog.entries - {KernelClass})
  }

  /** What load returns or throws. */
  function LoadResult(slotTaken: bool, env: Environment): Result<ClassRecord, Failure> {
    if !Registers(slotTaken, env) then Failure(BootstrapError(FactoryNotRegistered))
    else match env.scan
      case ScanThrowsBootstrap => Failure(BootstrapError(ScanFailed))
      case ScanThrowsUnchecked => Failure(Unchecked(ScanAborted))
      case ScanCompletes => KernelResult(env)
  }

  /** Whether start gets as far as invoking main. */
  predicate InvokesMain(slotTaken: bool, env: Environment) {
    LoadResult(slotTaken, env).Success? && env.hasMain
  }

  /** What start returns or throws. */
  function StartResult(slotTaken: bool, env: Environment): Result<(), Failure> {
    match LoadResult(slotTaken, env)
    case Failure(e) => Failure(e)
    case Success(_) =>
      if !env.hasMain then Failure(BootstrapError(NoMainMethod))
      else match env.main
        case MainReturns => Success(())
        case MainThrowsCaught => Failure(BootstrapError(InvocationFailed))
        case MainThrowsUncaught => Failure(Unchecked(MainAborted))
  }

  /** The actions of start, in order. */
  function StartEvents(slotTaken: bool, env: Environment, context: LoaderChain, args: seq<string>): seq<Event> {
    LoadEvents(slotTaken, env, context) +
    if InvokesMain(slotTaken, env) then
      [PropertySet(Key(MainInvoke), DecimalString(env.mainInvokeAt)), MainInvoked(LoaderNode(env, context), args)]
    else []
  }

  /** The system properties after load. */
  function LoadProperties(props: Properties, slotTaken: bool, env: Environment): Properties {
    if Scans(slotTaken, env) then
      props[Key(ScanBegin) := DecimalString(env.scanBeginAt)][Key(ScanEnd) := DecimalString(env.scanEndAt)]
    else props
  }

  /** The system properties after start. */
  function StartProperties(props: Properties, slotTaken: bool, env: Environment): Properties {
    var loaded := LoadProperties(props, slotTaken, env);
    if InvokesMain(slotTaken, env) then loaded[Key(MainInvoke) := DecimalString(env.mainInvokeAt)] else loaded
  }

  /** A thread terminate reports: created under the bootstrap's loader and not a daemon. */
  predicate Leftover(loader: LoaderChain, thread: ThreadRecord) {
    IsChildCreated(loader, thread.context) && !thread.daemon
  }

  /** What terminate does about one thread of the snapshot. */
  function ThreadActions(loader: LoaderChain, thread: ThreadRecord, reportOnly: bool): seq<Event> {
    if Leftover(loader, thread) then
      [ThreadWarned(thread)] + (if reportOnly then [] else [ThreadStopped(thread)])
    else []
  }

  /** What terminate does about the snapshot, thread by thread. */
  function ShutdownActions(loader: LoaderChain, threads: seq<ThreadRecord>, reportOnly: bool): seq<Event> {
    if threads == [] then []
    else ShutdownActions(loader, threads[..|threads| - 1], reportOnly) + ThreadActions(loader, threads[|threads| - 1], reportOnly)
  }

  /** The exit terminate performs when System.exit is enabled. */
  function ExitActions(exception: bool, exitEnabled: bool): seq<Event> {
    if exitEnabled then [Exited(if exception then -1 else 0)] else []
  }

  /** Whether start threw a BootstrapException, the flag main passes to terminate. */
  predicate ThrewBootstrapException(started: Result<(), Failure>) {
    started.Failure? && started.error.BootstrapError?
  }

  /**
   * A thread is warned about exactly when it is in the snapshot, child-created
   * and not a daemon; it is stopped exactly when, in addition, report-only is off.
   */
  lemma {:induction false} ShutdownActionsExactly(loader: LoaderChain, threads: seq<ThreadRecord>, reportOnly: bool,
                                                  thread: ThreadRecord)
    ensures ThreadWarned(thread) in ShutdownActions(loader, threads, reportOnly) <==>
      thread in threads && Leftover(loader, thread)
    ensures ThreadStopped(thread) in ShutdownActions(loader, threads, reportOnly) <==>
      thread in threads && Leftover(loader, thread) && !reportOnly
  {
    if threads != [] {
      var init, last := threads[..|threads| - 1], threads[|threads| - 1];
      ShutdownActionsExactly(loader, init, reportOnly, thread);
      assert threads == init + [last];
    }
  }

  /** Every action is a warning or a stop, and each stop comes right after the warning about its thread. */
  predicate StopsFollowWarnings(actions: seq<Event>) {
    forall i :: 0 <= i < |actions| ==> StopFollowsWarningAt(actions, i)
  }

  predicate StopFollowsWarningAt(actions: seq<Event>, i: nat)
    requires i < |actions|
  {
    && (actions[i].ThreadWarned? || actions[i].ThreadStopped?)
    && (actions[i].ThreadStopped? ==> 0 < i && actions[i - 1] == ThreadWarned(actions[i].thread))
  }

  /** Terminate touches no thread other than by warning about it or stopping it, and warns first. */
  lemma {:induction false} StopFollowsWarning(loader: LoaderChain, threads: seq<ThreadRecord>, reportOnly: bool)
    ensures StopsFollowWarnings(ShutdownActions(loader, threads, reportOnly))
  {
    if threads != [] {
      var init := threads[..|threads| - 1];
      StopFollowsWarning(loader, init, reportOnly);
      var prefix := ShutdownActions(loader, init, reportOnly);
      var tail := ThreadActions(loader, threads[|threads| - 1], reportOnly);
      var actions := prefix + tail;
      assert StopsFollowWarnings(prefix);
      forall i | 0 <= i < |actions|
        ensures StopFollowsWarningAt(actions, i)
      {
        if i < |prefix| {
          assert StopFollowsWarningAt(prefix, i);
          assert actions[i] == prefix[i];
          if prefix[i].ThreadStopped? {
            assert actions[i - 1] == prefix[i - 1];
          }
        } else {
          assert actions[i] == tail[i - |prefix|];
          if i - |prefix| == 1 {
            assert actions[i - 1] == tail[0];
          }
        }
      }
    }
  }

  /** Without a class loader (load failed before creating it) no thread is touched. */
  lemma {:induction false} NoLoaderNoActions(threads: seq<ThreadRecord>, reportOnly: bool)
    ensures ShutdownActions(Null, threads, reportOnly) == []
  {
    if threads != [] {
      NoLoaderNoActions(threads[..|threads| - 1], reportOnly);
    }
  }

  /**
   * When main is invoked, it runs with the new loader as context class loader,
   * after the factory was registered, the scan ran and its timestamps were stored.
   */
  lemma StartOrder(slotTaken: bool, env: Environment, context: LoaderChain, args: seq<string>)
    requires InvokesMain(slotTaken, env)
    ensures RegistrationEvents(slotTaken, env)[|RegistrationEvents(slotTaken, env)| - 1] == FactoryRegistered
    ensures StartEvents(slotTaken, env, context, args) ==
      [RepositoryCreated(env.location)] + RegistrationEvents(slotTaken, env) +
      [Scanned,
       PropertySet(Key(ScanBegin), DecimalString(env.scanBeginAt)),
       PropertySet(Key(ScanEnd), DecimalString(env.scanEndAt)),
       LoaderCreated(LoaderNode(env, context)),
       PropertySet(Key(MainInvoke), DecimalString(env.mainInvokeAt)),
       MainInvoked(LoaderNode(env, context), args)]
  {
    assert Scans(slotTaken, env);
  }

  /** Without a registered factory nothing is scanned and no loader is created. */
  lemma {:induction false} NoScanWithoutFactory(slotTaken: bool, env: Environment, context: LoaderChain, args: seq<string>)
    requires !Registers(slotTaken, env)
    ensures Scanned !in StartEvents(slotTaken, env, context, args)
    ensures forall e :: e in StartEvents(slotTaken, env, context, args) ==> !e.LoaderCreated? && !e.MainInvoked?
    ensures StartResult(slotTaken, env) == Failure(BootstrapError(FactoryNotRegistered))
  {
    assert StartEvents(slotTaken, env, context, args) == [RepositoryCreated(env.location), FactoryRejected];
  }

  /**
   * A scan that throws leaves the factory registered, stores no timestamp,
   * creates no loader and invokes nothing; only a BootstrapException from the
   * scan makes main report an exception.
   */
  lemma {:induction false} ScanFailureLeavesFactoryAndNoLoader(slotTaken: bool, env: Environment, context: LoaderChain,
                                                              args: seq<string>, props: Properties)
    requires Registers(slotTaken, env) && !env.scan.ScanCompletes?
    ensures StartEvents(slotTaken, env, context, args) == [RepositoryCreated(env.location)] + RegistrationEvents(slotTaken, env)
    ensures FactoryRegistered in StartEvents(slotTaken, env, context, args)
    ensures forall e :: e in StartEvents(slotTaken, env, context, args) ==> !e.LoaderCreated? && !e.MainInvoked?
    ensures StartProperties(props, slotTaken, env) == props
    ensures StartResult(slotTaken, env).Failure?
    ensures ThrewBootstrapException(StartResult(slotTaken, env)) <==> env.scan.ScanThrowsBootstrap?
  {
    var events := [RepositoryCreated(env.location)] + RegistrationEvents(slotTaken, env);
    assert StartEvents(slotTaken, env, context, args) == events;
    assert events[|events| - 1] == FactoryRegistered;
  }

  /**
   * start changes no property but the timestamps; scan.end is stored exactly
   * when the scan completed, main.invoke exactly when main is invoked, and each
   * reads back as the clock value it was taken from.
   */
  lemma {:induction false} StartPropertiesOnlyTimestamps(props: Properties, slotTaken: bool, env: Environment)
    ensures forall p :: p !in KeysOf(TimestampKeys) ==> Get(StartProperties(props, slotTaken, env), p) == Get(props, p)
    ensures Key(ScanEnd) in StartProperties(props, slotTaken, env) <==> Scans(slotTaken, env) || Key(ScanEnd) in props
    ensures Key(MainInvoke) in StartProperties(props, slotTaken, env) <==>
      InvokesMain(slotTaken, env) || Key(MainInvoke) in props
    ensures Scans(slotTaken, env) ==>
      ParseDecimal(StartProperties(props, slotTaken, env)[Key(ScanBegin)]) == Some(env.scanBeginAt)
    ensures InvokesMain(slotTaken, env) ==>
      ParseDecimal(StartProperties(props, slotTaken, env)[Key(MainInvoke)]) == Some(env.mainInvokeAt)
  {
    var after := StartProperties(props, slotTaken, env);
    assert Key(MainInvoke) != Key(ScanBegin) && Key(MainInvoke) != Key(ScanEnd) by {
      KeyInjective(MainInvoke, ScanBegin);
      KeyInjective(MainInvoke, ScanEnd);
    }
    assert Key(ScanBegin) != Key(ScanEnd) by {
      KeyInjective(ScanBegin, ScanEnd);
    }
    forall p | p !in KeysOf(TimestampKeys)
      ensures Get(after, p) == Get(props, p)
    {
      assert p != Key(ScanBegin) && p != Key(ScanEnd) && p != Key(MainInvoke);
    }
    if Scans(slotTaken, env) {
      DecimalStringRoundTrip(env.scanBeginAt);
    }
    if InvokesMain(slotTaken, env) {
      DecimalStringRoundTrip(env.mainInvokeAt);
    }
  }

  /**
   * start throws a BootstrapException exactly when the factory cannot be
   * registered, the scan throws one, the kernel class is found nowhere, it has
   * no main, or main.invoke throws one of the exceptions start catches.
   */
  lemma BootstrapExceptionIff(slotTaken: bool, env: Environment)
    ensures ThrewBootstrapException(StartResult(slotTaken, env)) <==>
      || !Registers(slotTaken, env)
      || env.scan.ScanThrowsBootstrap?
      || (Scans(slotTaken, env) && KernelClass !in env.ambient && KernelClass !in env.catalog.entries)
      || (LoadResult(slotTaken, env).Success? && (!env.hasMain || env.main.MainThrowsCaught?))
  {
  }

  /**
   * The kernel's tables after load agree with what loadClass returned: the
   * kernel is in this loader's class table exactly when this loader defined
   * it, and then its bytes are gone from the repository while every other
   * entry stays.
   */
  lemma KernelTablesAgreeWithResult(env: Environment)
    ensures KernelClass in KernelTables(env).classes <==>
      KernelResult(env).Success? && KernelClass !in env.ambient
    ensures KernelClass in KernelTables(env).classes ==>
      && KernelTables(env).classes[KernelClass] == KernelResult(env).value
      && KernelClass !in KernelTables(env).entries
    ensures forall name :: name != KernelClass ==>
      (name in KernelTables(env).entries <==> name in env.catalog.entries)
    ensures KernelTables(env).packages != map[] <==>
      KernelClass !in env.ambient && KernelClass in env.catalog.entries &&
      JarName(env.catalog.entries[KernelClass].location).Some?
  {
    if KernelClass !in env.ambient && KernelClass in env.catalog.entries {
      var entry := env.catalog.entries[KernelClass];
      if JarName(entry.location).Some? {
        assert KernelPackage in KernelTables(env).packages;
        if env.define.Defines? {
          assert KernelTables(env).classes == map[KernelClass := ClassRecord(KernelClass, entry.bytes, entry.location)];
          assert KernelTables(env).entries == env.catalog.entries - {KernelClass};
        } else {
          assert KernelTables(env).classes == map[];
        }
      } else {
        assert KernelTables(env) == LoaderTables(map[], map[], [], env.catalog.entries);
      }
    } else {
      assert KernelTables(env) == LoaderTables(map[], map[], [], env.catalog.entries);
    }
  }

  /**
   * An error thrown by defineClass escapes start unwrapped, so main passes
   * `false` to terminate, which exits with status 0 when exit is enabled.
   */
  lemma UncheckedFailureExitsWithZero(slotTaken: bool, env: Environment)
    requires Registers(slotTaken, env) && env.scan.ScanCompletes?
    requires KernelClass !in env.ambient && KernelClass in env.catalog.entries
    requires JarName(env.catalog.entries[KernelClass].location).Some? && env.define.Rejects?
    ensures StartResult(slotTaken, env) == Failure(Unchecked(LoadFailed(DefinitionRejected(KernelClass))))
    ensures ExitActions(ThrewBootstrapException(StartResult(slotTaken, env)), true) == [Exited(0)]
  {
  }

  /**
   * When main.invoke throws, the exit status is -1 for the exceptions start
   * wraps and 0 for the errors that escape it unwrapped.
   */
  lemma MainFailureExitStatus(slotTaken: bool, env: Environment)
    requires InvokesMain(slotTaken, env) && !env.main.MainReturns?
    ensures StartResult(slotTaken, env) ==
      if env.main.MainThrowsCaught? then Failure(BootstrapError(InvocationFailed)) else Failure(Unchecked(MainAborted))
    ensures ExitActions(ThrewBootstrapException(StartResult(slotTaken, env)), true) ==
      [Exited(if env.main.MainThrowsCaught? then -1 else 0)]
  {
  }

  /**
   * Over a whole run of main, the properties begin, start and terminate touch
   * are only the four timestamps: terminate leaves the properties as they were
   * before main, less any earlier timestamps, and both switches read during
   * terminate what they read before main.
   */
  lemma {:induction false} StartupLeavesNoTimestamps(props: Properties, slotTaken: bool, env: Environment)
    ensures var during := StartProperties(props[Key(Begin) := DecimalString(env.beginAt)], slotTaken, env);
      && Cleared(during, TimestampKeys) == props - KeysOf(TimestampKeys)
      && GetBoolean(during, ReportOnlyOnStop) == GetBoolean(props, ReportOnlyOnStop)
      && GetBoolean(during, SystemExitEnabled) == GetBoolean(props, SystemExitEnabled)
  {
    var begun := props[Key(Begin) := DecimalString(env.beginAt)];
    var during := StartProperties(begun, slotTaken, env);
    StartPropertiesOnlyTimestamps(begun, slotTaken, env);
    forall p | p !in KeysOf(TimestampKeys)
      ensures Get(during, p) == Get(props, p)
    {
      assert p != Key(Begin);
      assert Get(during, p) == Get(begun, p);
    }
    SwitchesSurviveBootstrapKeys(props, during, ReportOnlyOnStop);
    SwitchesSurviveBootstrapKeys(props, during, SystemExitEnabled);
    ClearingUndoesTimestamps(props, during);
  }

  /** The JVM state the bootstrap reads and changes. */
  class Jvm {
    var properties: Properties
    /** The context class loader of the thread running Bootstrap. */
    var contextLoader: LoaderChain
    /** URL's stream handler factory slot. */
    var urlFactory: Option<Factory>
    var events: seq<Event>

    constructor (properties: Properties, contextLoader: LoaderChain, urlFactory: Option<Factory>)
      ensures this.properties == properties && this.contextLoader == contextLoader
      ensures this.urlFactory == urlFactory && events == []
    {
      this.properties, this.contextLoader, this.urlFactory := properties, contextLoader, urlFactory;
      events := [];
    }

    /** addBootstrapProperty(key, long): stores the decimal value under the namespace. */
    method AddBootstrapProperty(key: string, value: int)
      modifies this
      ensures properties == old(properties)[Key(key) := DecimalString(value)]
      ensures events == old(events) + [PropertySet(Key(key), DecimalString(value))]
      ensures contextLoader == old(contextLoader) && urlFactory == old(urlFactory)
    {
      properties := properties[Key(key) := DecimalString(value)];
      events := events + [PropertySet(Key(key), DecimalString(value))];
    }

    /** clearBootstrapProperties(keys): clears the namespaced property of each key. */
    method ClearBootstrapProperties(keys: seq<string>)
      modifies this
      ensures properties == Cleared(old(properties), keys)
      ensures events == old(events) && contextLoader == old(contextLoader) && urlFactory == old(urlFactory)
    {
      for i := 0 to |keys|
        invariant properties == old(properties) - KeysOf(keys[..i])
        invariant events == old(events) && contextLoader == old(contextLoader) && urlFactory == old(urlFactory)
      {
        assert KeysOf(keys[..i + 1]) == KeysOf(keys[..i]) + {Key(keys[i])} by {
          assert keys[..i + 1] == keys[..i] + [keys[i]];
        }
        properties := properties - {Key(keys[i])};
      }
      assert keys[..|keys|] == keys;
    }

    /** URL.setURLStreamHandlerFactory: fails (throws an Error) when a factory is already set. */
    method SetUrlStreamHandlerFactory(factory: Factory) returns (ok: bool)
      modifies this
      ensures ok == old(urlFactory).None?
      ensures urlFactory == if ok then Some(factory) else old(urlFactory)
      ensures events == old(events) + [if ok then FactoryRegistered else FactoryRejected]
      ensures properties == old(properties) && contextLoader == old(contextLoader)
    {
      ok := urlFactory.None?;
      if ok {
        urlFactory := Some(factory);
      }
      events := events + [if ok then FactoryRegistered else FactoryRejected];
    }

    /**
     * The reflective `URL.class.getDeclaredField("factory")`, setAccessible and
     * set(null, null); `allowed` says whether reflection lets it through.
     */
    method ResetUrlStreamHandlerFactory(allowed: bool) returns (ok: bool)
      modifies this
      ensures ok == allowed
      ensures urlFactory == if ok then None else old(urlFactory)
      ensures events == old(events) + if ok then [FactoryReset] else []
      ensures properties == old(properties) && contextLoader == old(contextLoader)
    {
      ok := allowed;
      if ok {
        urlFactory := None;
        events := events + [FactoryReset];
      }
    }
  }

  class Bootstrap {
    const args: seq<string>
    var classLoader: InsideJarClassLoader?

    constructor (args: seq<string>)
      ensures this.args == args && classLoader == null
    {
      this.args := args;
      classLoader := null;
    }

    /** The bootstrap's class loader as a link of the loader chain; Null before load creates it. */
    function ClassLoaderNode(): LoaderChain
      reads this
    {
      if classLoader == null then Null else classLoader.Node()
    }

    /**
     * load(): builds the repository, registers the factory (clearing the slot
     * and retrying once if it is taken), scans, records the scan timestamps,
     * creates the class loader and loads the kernel class through it.
     */
    method Load(jvm: Jvm, env: Environment) returns (r: Result<ClassRecord, Failure>)
      modifies this, jvm
      ensures r == LoadResult(old(jvm.urlFactory).Some?, env)
      ensures jvm.events == old(jvm.events) + LoadEvents(old(jvm.urlFactory).Some?, env, old(jvm.contextLoader))
      ensures jvm.contextLoader == old(jvm.contextLoader)
      ensures jvm.properties == LoadProperties(old(jvm.properties), old(jvm.urlFactory).Some?, env)
      ensures !Registers(old(jvm.urlFactory).Some?, env) ==> jvm.urlFactory == old(jvm.urlFactory)
      ensures Registers(old(jvm.urlFactory).Some?, env) ==>
        && jvm.urlFactory.Some? && jvm.urlFactory.value.RepositoryFactory?
        && fresh(jvm.urlFactory.value.repository)
        && jvm.urlFactory.value.repository.location == env.location
      ensures Registers(old(jvm.urlFactory).Some?, env) && !Scans(old(jvm.urlFactory).Some?, env) ==>
        var repository := jvm.urlFactory.value.repository;
        repository.entries == map[] && repository.resourceUrl == map[] && repository.resourceUrls == map[]
      ensures !Scans(old(jvm.urlFactory).Some?, env) ==> classLoader == old(classLoader)
      ensures Scans(old(jvm.urlFactory).Some?, env) ==>
        && classLoader != null && fresh(classLoader)
        && ClassLoaderNode() == LoaderNode(env, old(jvm.contextLoader))
        && jvm.urlFactory == Some(RepositoryFactory(classLoader.repository))
        && classLoader.Tables() == KernelTables(env)
        && classLoader.repository.resourceUrl == env.catalog.resourceUrl
        && classLoader.repository.resourceUrls == env.catalog.resourceUrls
    {
      var location := env.location;
      var repository := new EntriesRepository(location);
      jvm.events := jvm.events + [RepositoryCreated(location)];

      var registered := RegisterFactory(jvm, repository, env);
      if !registered {
        return Failure(BootstrapError(FactoryNotRegistered));
      }

      match env.scan
      case ScanThrowsBootstrap => return Failure(BootstrapError(ScanFailed));
      case ScanThrowsUnchecked => return Failure(Unchecked(ScanAborted));
      case ScanCompletes => r := ScanAndLoadKernel(jvm, repository, env);
    }

    /**
     * The rest of load once the factory is registered and the scan completes:
     * records the scan timestamps, creates the class loader under the context
     * class loader and loads the kernel class through it.
     */
    method ScanAndLoadKernel(jvm: Jvm, repository: EntriesRepository, env: Environment)
      returns (r: Result<ClassRecord, Failure>)
      modifies this, jvm, repository
      ensures r == KernelResult(env)
      ensures jvm.events == old(jvm.events) +
        [Scanned,
         PropertySet(Key(ScanBegin), DecimalString(env.scanBeginAt)),
         PropertySet(Key(ScanEnd), DecimalString(env.scanEndAt)),
         LoaderCreated(LoaderNode(env, old(jvm.contextLoader)))]
      ensures jvm.properties == old(jvm.properties)[Key(ScanBegin) := DecimalString(env.scanBeginAt)]
                                                   [Key(ScanEnd) := DecimalString(env.scanEndAt)]
      ensures jvm.contextLoader == old(jvm.contextLoader) && jvm.urlFactory == old(jvm.urlFactory)
      ensures classLoader != null && fresh(classLoader) && classLoader.repository == repository
      ensures ClassLoaderNode() == LoaderNode(env, old(jvm.contextLoader))
      ensures classLoader.Tables() == KernelTables(env)
      ensures repository.resourceUrl == env.catalog.resourceUrl && repository.resourceUrls == env.catalog.resourceUrls
    {
      repository.Scan(env.catalog);
      jvm.events := jvm.events + [Scanned];
      jvm.AddBootstrapProperty(ScanBegin, env.scanBeginAt);
      jvm.AddBootstrapProperty(ScanEnd, env.scanEndAt);

      var loader := new InsideJarClassLoader(env.loaderId, jvm.contextLoader, repository);
      jvm.events := jvm.events + [LoaderCreated(loader.Node())];
      r := LoadKernel(loader, env);
      classLoader := loader;
    }

    /**
     * The registration step of load: setURLStreamHandlerFactory, and when the
     * slot is taken, the reflective reset followed by one more attempt.
     */
    static method RegisterFactory(jvm: Jvm, repository: EntriesRepository, env: Environment) returns (registered: bool)
      modifies jvm
      ensures registered == Registers(old(jvm.urlFactory).Some?, env)
      ensures jvm.urlFactory == if registered then Some(RepositoryFactory(repository)) else old(jvm.urlFactory)
      ensures jvm.events == old(jvm.events) + RegistrationEvents(old(jvm.urlFactory).Some?, env)
      ensures jvm.properties == old(jvm.properties) && jvm.contextLoader == old(jvm.contextLoader)
    {
      registered := jvm.SetUrlStreamHandlerFactory(RepositoryFactory(repository));
      if !registered {
        registered := jvm.ResetUrlStreamHandlerFactory(env.factoryResettable);
        if registered {
          registered := jvm.SetUrlStreamHandlerFactory(RepositoryFactory(repository));
        }
      }
    }

    /**
     * The last step of load: classLoader.loadClass(KernelClass) on the new
     * loader, a ClassNotFoundException becoming a BootstrapException.
     */
    static method LoadKernel(loader: InsideJarClassLoader, env: Environment) returns (r: Result<ClassRecord, Failure>)
      requires loader.classes == map[] && loader.packages == map[] && loader.trace == []
      requires loader.repository.entries == env.catalog.entries
      modifies loader, loader.repository
      ensures r == KernelResult(env)
      ensures loader.Tables() == KernelTables(env)
      ensures loader.repository.resourceUrl == old(loader.repository.resourceUrl)
      ensures loader.repository.resourceUrls == old(loader.repository.resourceUrls)
    {
      KernelPackageName();
      var loaded := loader.LoadClass(KernelClass, env.ambient, env.readManifest, env.define);
      match loaded {
        case Success(c) => r := Success(c);
        case Failure(ClassNotFound(_)) => r := Failure(BootstrapError(ClassNotLoadable(KernelClass)));
        case Failure(e) => r := Failure(Unchecked(LoadFailed(e)));
      }
      ghost var untouched := LoaderTables(map[], map[], [], env.catalog.entries);
      if KernelClass in env.ambient {
        assert loader.Tables() == untouched;
      } else if KernelClass !in env.catalog.entries {
        assert loaded == Failure(ClassNotFound(KernelClass));
        assert loader.Tables() == untouched;
      } else {
        ghost var entry := env.catalog.entries[KernelClass];
        if JarName(entry.location).None? {
          assert loaded == Failure(BadLocation(entry.location));
          assert loader.Tables() == untouched;
        } else {
          ghost var p := PackageFor(KernelPackage, entry.location, env.readManifest(JarName(entry.location).value));
          assert loader.packages == map[KernelPackage := p];
          if env.define.Rejects? {
            assert loaded == Failure(DefinitionRejected(KernelClass));
            assert loader.trace == [PackageDefined(p)];
          } else {
            assert loaded == Success(ClassRecord(KernelClass, entry.bytes, entry.location));
            assert loader.trace == [PackageDefined(p), ClassDefined(KernelClass), EntryEvicted(KernelClass)];
          }
        }
      }
    }

    /**
     * start(): loads the kernel class, finds its main, records main.invoke and
     * invokes main with the new loader as context class loader, restoring the
     * previous context class loader however main ends.
     */
    method Start(jvm: Jvm, env: Environment) returns (r: Result<(), Failure>)
      modifies this, jvm
      ensures r == StartResult(old(jvm.urlFactory).Some?, env)
      ensures jvm.events == old(jvm.events) + StartEvents(old(jvm.urlFactory).Some?, env, old(jvm.contextLoader), args)
      ensures jvm.contextLoader == old(jvm.contextLoader)
      ensures jvm.properties == StartProperties(old(jvm.properties), old(jvm.urlFactory).Some?, env)
      ensures !Registers(old(jvm.urlFactory).Some?, env) ==> jvm.urlFactory == old(jvm.urlFactory)
      ensures Registers(old(jvm.urlFactory).Some?, env) ==>
        && jvm.urlFactory.Some? && jvm.urlFactory.value.RepositoryFactory?
        && fresh(jvm.urlFactory.value.repository)
      ensures ClassLoaderNode() ==
        if Scans(old(jvm.urlFactory).Some?, env) then LoaderNode(env, old(jvm.contextLoader)) else old(ClassLoaderNode())
      ensures Scans(old(jvm.urlFactory).Some?, env) ==>
        && classLoader != null
        && jvm.urlFactory == Some(RepositoryFactory(classLoader.repository))
        && classLoader.Tables() == KernelTables(env)
    {
      var loaded := Load(jvm, env);
      if loaded.Failure? {
        return Failure(loaded.error);
      }
      if !env.hasMain {
        return Failure(BootstrapError(NoMainMethod));
      }
      r := InvokeMain(jvm, classLoader.Node(), args, env);
    }

    /**
     * The end of start once main is found: records main.invoke and runs main
     * with the bootstrap's `args` and with `loader` as context class loader; the
     * finally block restores the previous context class loader, whichever way
     * main.invoke ends.
     */
    static method InvokeMain(jvm: Jvm, loader: LoaderChain, args: seq<string>, env: Environment) returns (r: Result<(), Failure>)
      modifies jvm
      ensures r == match env.main
        case MainReturns => Success(())
        case MainThrowsCaught => Failure(BootstrapError(InvocationFailed))
        case MainThrowsUncaught => Failure(Unchecked(MainAborted))
      ensures jvm.properties == old(jvm.properties)[Key(MainInvoke) := DecimalString(env.mainInvokeAt)]
      ensures jvm.events == old(jvm.events) + [PropertySet(Key(MainInvoke), DecimalString(env.mainInvokeAt)), MainInvoked(loader, args)]
      ensures jvm.contextLoader == old(jvm.contextLoader) && jvm.urlFactory == old(jvm.urlFactory)
    {
      jvm.AddBootstrapProperty(MainInvoke, env.mainInvokeAt);
      var saved := jvm.contextLoader;
      jvm.contextLoader := loader;
      jvm.events := jvm.events + [MainInvoked(jvm.contextLoader, args)];
      // main runs here and may leave any context class loader behind
      jvm.contextLoader := env.contextLeftByMain;
      var ending := env.main;
      jvm.contextLoader := saved;
      match ending
      case MainReturns => r := Success(());
      case MainThrowsCaught => r := Failure(BootstrapError(InvocationFailed));
      case MainThrowsUncaught => r := Failure(Unchecked(MainAborted));
    }

    /**
     * isChildCreatedThread(thread): walks the parent chain of the thread's
     * context class loader, starting with its parent, looking for this
     * bootstrap's class loader.
     */
    method IsChildCreatedThread(thread: ThreadRecord) returns (child: bool)
      ensures child == IsChildCreated(ClassLoaderNode(), thread.context)
    {
      if classLoader == null {
        return false;
      }
      var cl := thread.context;
      while cl != Null
        invariant IsChildCreated(classLoader.Node(), thread.context) == IsChildCreated(classLoader.Node(), cl)
        decreases cl
      {
        cl := cl.parent;
        if cl == classLoader.Node() {
          return true;
        }
      }
      return false;
    }

    /**
     * terminate(exception): clears the timestamps, warns about (and unless
     * report-only is set, stops) every leftover thread of the snapshot, then
     * exits with -1 or 0 when System.exit is enabled.
     */
    method Terminate(jvm: Jvm, exception: bool, threads: seq<ThreadRecord>)
      modifies jvm
      ensures jvm.properties == Cleared(old(jvm.properties), TimestampKeys)
      ensures jvm.contextLoader == old(jvm.contextLoader) && jvm.urlFactory == old(jvm.urlFactory)
      ensures jvm.events == old(jvm.events)
        + ShutdownActions(ClassLoaderNode(), threads, GetBoolean(old(jvm.properties), ReportOnlyOnStop))
        + ExitActions(exception, GetBoolean(old(jvm.properties), SystemExitEnabled))
    {
      jvm.ClearBootstrapProperties(TimestampKeys);
      SwitchesSurviveBootstrapKeys(old(jvm.properties), jvm.properties, ReportOnlyOnStop);
      SwitchesSurviveBootstrapKeys(old(jvm.properties), jvm.properties, SystemExitEnabled);
      ReportThreads(jvm, threads);
      if GetBoolean(jvm.properties, SystemExitEnabled) {
        jvm.events := jvm.events + [Exited(if exception then -1 else 0)];
      }
    }

    /**
     * The thread loop of terminate: for each thread of the snapshot, in order,
     * a warning when it is child-created and not a daemon, and a stop after the
     * warning unless report-only is set.
     */
    method ReportThreads(jvm: Jvm, threads: seq<ThreadRecord>)
      modifies jvm
      ensures jvm.events == old(jvm.events) + ShutdownActions(ClassLoaderNode(), threads, GetBoolean(jvm.properties, ReportOnlyOnStop))
      ensures jvm.properties == old(jvm.properties)
      ensures jvm.contextLoader == old(jvm.contextLoader) && jvm.urlFactory == old(jvm.urlFactory)
    {
      ghost var reportOnly := GetBoolean(jvm.properties, ReportOnlyOnStop);
      ghost var node := ClassLoaderNode();
      for i := 0 to |threads|
        invariant jvm.events == old(jvm.events) + ShutdownActions(node, threads[..i], reportOnly)
        invariant jvm.properties == old(jvm.properties)
        invariant jvm.contextLoader == old(jvm.contextLoader) && jvm.urlFactory == old(jvm.urlFactory)
      {
        var thread := threads[i];
        ghost var before := jvm.events;
        var child := IsChildCreatedThread(thread);
        if child && !thread.daemon {
          var onlyReporting := GetBoolean(jvm.properties, ReportOnlyOnStop);
          jvm.events := jvm.events + [ThreadWarned(thread)];
          if !onlyReporting {
            jvm.events := jvm.events + [ThreadStopped(thread)];
          }
        }
        assert jvm.events == before + ThreadActions(node, thread, reportOnly);
        assert threads[..i + 1][..i] == threads[..i];
        assert ShutdownActions(node, threads[..i + 1], reportOnly) ==
          ShutdownActions(node, threads[..i], reportOnly) + ThreadActions(node, thread, reportOnly);
      }
      assert threads[..|threads|] == threads;
    }

    /**
     * main(args): records `begin`, runs start, and always runs terminate,
     * passing whether start threw a BootstrapException. Returns what start
     * returned or threw; an unchecked failure leaves main after terminate.
     * The factory start registered stays installed.
     */
    static method Launch(jvm: Jvm, args: seq<string>, env: Environment) returns (started: Result<(), Failure>)
      modifies jvm
      ensures started == StartResult(old(jvm.urlFactory).Some?, env)
      ensures jvm.contextLoader == old(jvm.contextLoader)
      ensures jvm.properties == old(jvm.properties) - KeysOf(TimestampKeys)
      ensures jvm.events == old(jvm.events)
        + [PropertySet(Key(Begin), DecimalString(env.beginAt))]
        + StartEvents(old(jvm.urlFactory).Some?, env, old(jvm.contextLoader), args)
        + ShutdownActions(if Scans(old(jvm.urlFactory).Some?, env) then LoaderNode(env, old(jvm.contextLoader)) else Null,
                          env.threads, GetBoolean(old(jvm.properties), ReportOnlyOnStop))
        + ExitActions(ThrewBootstrapException(started), GetBoolean(old(jvm.properties), SystemExitEnabled))
      ensures !Registers(old(jvm.urlFactory).Some?, env) ==> jvm.urlFactory == old(jvm.urlFactory)
      ensures Registers(old(jvm.urlFactory).Some?, env) ==>
        && jvm.urlFactory.Some? && jvm.urlFactory.value.RepositoryFactory?
        && fresh(jvm.urlFactory.value.repository)
      ensures Scans(old(jvm.urlFactory).Some?, env) ==>
        jvm.urlFactory.Some? && jvm.urlFactory.value.RepositoryFactory? &&
        jvm.urlFactory.value.repository.entries == KernelTables(env).entries
    {
      ghost var slotTaken := jvm.urlFactory.Some?;
      ghost var node := if Scans(slotTaken, env) then LoaderNode(env, jvm.contextLoader) else Null;
      StartupLeavesNoTimestamps(jvm.properties, slotTaken, env);
      jvm.AddBootstrapProperty(Begin, env.beginAt);
      var bootstrap := new Bootstrap(args);
      started := bootstrap.Start(jvm, env);
      assert bootstrap.ClassLoaderNode() == node;
      var exception := ThrewBootstrapException(started);
      bootstrap.Terminate(jvm, exception, env.threads);
    }
  }
}
