# Peergreen platform bootstrap, modelled in Dafny

The Peergreen bootstrap starts a platform that ships as one jar holding other
jars. `Bootstrap` builds an entries repository over its own jar, registers a
URL stream handler factory that serves nested-jar URLs from that repository,
scans the jar, and creates an `InsideJarClassLoader` over the repository. It then
loads `com.peergreen.kernel.launcher.Kernel` and calls its `main`, with the new
loader as the thread's context class loader. At shutdown it clears its
diagnostic timestamp properties. It warns about, and optionally stops, the
non-daemon threads created under its loader, and optionally calls
`System.exit`. `InsideJarClassLoader.findClass` defines a class from the bytes
the repository holds for it. It first defines the class's package, once per
package name, from the manifest of the nested jar. It then drops those bytes
from the repository.

Files:

- `wrappers.dfy`: `Option` (a Java null) and `Result` (a call that returns or throws).
- `jar_strings.dfy`: the string logic of `definePackage`:
  - `lastIndexOf`;
  - the package name of a class;
  - the nested-jar name of a location;
  - the case-insensitive test for `"true"`.
- `properties.dfy`: the system properties.
  - The namespace prefix `com.peergreen.bootstrap:` and the four timestamp keys.
  - `String.valueOf(long)` and its inverse.
  - Clearing the keys.
  - The two `Boolean.getBoolean` switches.
- `loaders.dfy`: class loaders as an inductive parent chain, so every chain is finite. Also thread records and the strict-ancestor test behind `isChildCreatedThread`.
- `repository.dfy`: only the part of `EntriesRepository` that the core uses (`getByteEntry`, `removeClassEntry`, `getURL`, `getURLs`, `scan`). It is a class over maps.
- `class_loader.dfy`: `InsideJarClassLoader` as a class.
  - `packages` and `classes` stand for the JVM's package and class tables of this loader.
  - `trace` records `definePackage`, `defineClass` and `removeClassEntry` calls in order.
- `launcher.dfy`: the JVM state that `Bootstrap` touches, as a `Jvm` class:
  - the properties;
  - the context class loader;
  - the URL factory slot;
  - an ordered `events` log of observable actions.

  It also holds `Bootstrap` as a class with `Load`, `Start`, `IsChildCreatedThread`, `Terminate` and `Launch` (`main`), and the steps they are split into. Their `ensures` tie the new state to specification functions (`LoadResult`, `StartResult`, `LoadEvents`, `StartEvents`, `ShutdownActions`), and the lemmas prove what the code promises about those functions.

Everything outside the two source files is a value of `Environment` handed to the run:

- the clock readings;
- the result of the reflective factory reset;
- how the scan ends (it completes, or throws a `BootstrapException` or an unchecked error) and the catalogue it finds;
- what the parent class loader resolves;
- the manifest read for each nested jar;
- what `defineClass` does;
- whether the kernel has `main`, and how `main.invoke` ends (it returns, throws an exception `start` catches, or throws an error that escapes `start`);
- the thread snapshot.

Behaviour of the code worth knowing; the model follows the code:

- The URL handler factory is registered before the scan (`Bootstrap.java:110` comes before `:127`). The scan timestamps are stored after the scan returns.
- `isChildCreatedThread` starts its walk at the parent of the thread's context loader. A thread whose context class loader is the bootstrap's loader itself is therefore not matched (`ContextLoaderItselfNotMatched`). A thread started from the kernel's `main` inherits exactly that context loader, so terminate neither warns about it nor stops it.
- Only a `BootstrapException` from `start` makes `main` pass `true` to `terminate`. Other errors escape `start` unwrapped. Examples are the error `defineClass` throws for bad kernel bytes, an `ExceptionInInitializerError` from the kernel's static initializer raised by `main.invoke`, and an unchecked error from the scan. With exit enabled, the process then exits with status 0 (`UncheckedFailureExitsWithZero`, `MainFailureExitStatus`).
- The scan (`Bootstrap.java:127`) is outside every `try` of `load`. A scan that throws leaves the factory registered, with no scan timestamps and no class loader, so `terminate` touches no thread (`ScanFailureLeavesFactoryAndNoLoader`).
- `removeClassEntry` is modelled as removing the class's entry from the repository's map.

## Model

| member | source | states |
|---|---|---|
| `JarStrings.LastIndexOf` | src/main/java/com/peergreen/bootstrap/InsideJarClassLoader.java:103 | the result is -1 exactly when the character is absent, else an index holding it with no later occurrence |
| `JarStrings.PackageName` | src/main/java/com/peergreen/bootstrap/InsideJarClassLoader.java:103 | "" when the name has no '.', else a proper prefix followed in the name by a '.' after which no '.' occurs |
| `JarStrings.PackageNameOfQualified` | src/main/java/com/peergreen/bootstrap/InsideJarClassLoader.java:103 | for a simple name without '.', the package of `pkg + "." + simple` is `pkg` |
| `JarStrings.PackageNameSplits` | src/main/java/com/peergreen/bootstrap/InsideJarClassLoader.java:103 | a name with a '.' is its package name, a '.', and a suffix containing no '.' |
| `JarStrings.JarName` | src/main/java/com/peergreen/bootstrap/InsideJarClassLoader.java:109-110 | the substring throws exactly when the location is empty or ends in '!'. Otherwise, when the location holds a '!', the jar name is what follows the last '!' and the one character after it. When it holds no '!', the jar name is the location minus its first character |
| `JarStrings.JarNameOfNestedLocation` | src/main/java/com/peergreen/bootstrap/InsideJarClassLoader.java:110 | the location `outer!/jar` yields exactly `jar` when `jar` has no '!' |
| `JarStrings.EqualsIgnoreCaseIffLowered` | src/main/java/com/peergreen/bootstrap/InsideJarClassLoader.java:120 | `equalsIgnoreCase` holds exactly when both strings have the same length and the same lower-case form |
| `JarStrings.TrueIgnoringCaseIff` | src/main/java/com/peergreen/bootstrap/InsideJarClassLoader.java:120 | `"true".equalsIgnoreCase(v)` holds exactly when v is non-null and lower-cases to "true" |
| `JarStrings.CharEqualsIgnoreCaseIffLowered` | src/main/java/com/peergreen/bootstrap/InsideJarClassLoader.java:120 | the per-character test of equalsIgnoreCase holds exactly when both characters have the same lower-case form |
| `JarStrings.EqualsIgnoreCase` | src/main/java/com/peergreen/bootstrap/InsideJarClassLoader.java:120 | only strings of equal length match, and every string matches itself |
| `JarStrings.IsTrueIgnoringCase` | src/main/java/com/peergreen/bootstrap/InsideJarClassLoader.java:120 | only a non-null value of four characters passes, and "true" itself does |
| `ClassLoading.PackageFor` | src/main/java/com/peergreen/bootstrap/InsideJarClassLoader.java:117-137 | a failed manifest read (MalformedURLException or IOException) gives a package with all seven attributes null; a read manifest gives its six title/version/vendor values |
| `ClassLoading.Attribute` | src/main/java/com/peergreen/bootstrap/InsideJarClassLoader.java:120-127 | Attributes.getValue is null exactly when the attribute is absent, else its value |
| `ClassLoading.SealBaseIff` | src/main/java/com/peergreen/bootstrap/InsideJarClassLoader.java:120-128 | the package is sealed exactly when the manifest was read and its Sealed value is "true" in any case, and then its seal base is the class's location |
| `ClassLoading.InsideJarClassLoader.constructor` | src/main/java/com/peergreen/bootstrap/InsideJarClassLoader.java:53-57 | a new loader has the given parent and repository and defines nothing |
| `ClassLoading.InsideJarClassLoader.DefinePackage` | src/main/java/com/peergreen/bootstrap/InsideJarClassLoader.java:100-139 | an existing package is left as it is; otherwise a bad location throws with nothing changed, or exactly one package, built from the manifest of the named jar, is added; classes never change |
| `ClassLoading.InsideJarClassLoader.FindClass` | src/main/java/com/peergreen/bootstrap/InsideJarClassLoader.java:65-93 | an absent entry throws ClassNotFoundException and changes nothing. Otherwise the package is defined first, then the class. A define failure leaves the entry in the repository. On success the class is defined from the entry's bytes and code source, and then exactly that entry is evicted |
| `ClassLoading.InsideJarClassLoader.LoadClass` | src/main/java/com/peergreen/bootstrap/Bootstrap.java:139-144 | a class this loader already defined comes back unchanged with no effect; else the parent's class; else the effect of findClass |
| `ClassLoading.InsideJarClassLoader.FindResource` | src/main/java/com/peergreen/bootstrap/InsideJarClassLoader.java:145-149 | the result is the repository's URL for the name, unchanged |
| `ClassLoading.InsideJarClassLoader.FindResources` | src/main/java/com/peergreen/bootstrap/InsideJarClassLoader.java:155-158 | the result is the repository's URL list for the name, unchanged |
| `Repository.EntriesRepository.constructor` | src/main/java/com/peergreen/bootstrap/Bootstrap.java:106 | a new repository for the container location holds no entries before its scan |
| `Repository.EntriesRepository.Scan` | src/main/java/com/peergreen/bootstrap/Bootstrap.java:127 | after the scan the repository answers from the catalogue found |
| `Repository.EntriesRepository.GetByteEntry` | src/main/java/com/peergreen/bootstrap/InsideJarClassLoader.java:71-74 | null exactly when the class has no entry, else that entry |
| `Repository.EntriesRepository.GetURL` | src/main/java/com/peergreen/bootstrap/InsideJarClassLoader.java:147 | getURL(name) is null exactly when the resource is unknown, else its catalogued URL |
| `Repository.EntriesRepository.GetURLs` | src/main/java/com/peergreen/bootstrap/InsideJarClassLoader.java:157 | getURLs(name) enumerates the catalogued URLs of the resource, and nothing for an unknown resource |
| `Repository.EntriesRepository.RemoveClassEntry` | src/main/java/com/peergreen/bootstrap/InsideJarClassLoader.java:83 | exactly the named entry is removed; every other entry and all resource lookups are unchanged |
| `SystemProperties.KeyInjective` | src/main/java/com/peergreen/bootstrap/Bootstrap.java:256-258 | distinct keys are stored under distinct namespaced property names |
| `SystemProperties.SwitchesAreNotNamespaced` | src/main/java/com/peergreen/bootstrap/Bootstrap.java:33-46 | no namespaced property name equals either switch property name |
| `SystemProperties.SwitchesSurviveBootstrapKeys` | src/main/java/com/peergreen/bootstrap/Bootstrap.java:208-218 | writing or clearing the timestamp properties never changes what `Boolean.getBoolean` reads for either switch |
| `SystemProperties.ClearedExactly` | src/main/java/com/peergreen/bootstrap/Bootstrap.java:246-250 | a property survives clearing exactly when it is not the namespaced name of a cleared key, and keeps its value |
| `SystemProperties.ClearingUndoesTimestamps` | src/main/java/com/peergreen/bootstrap/Bootstrap.java:184-200 | after timestamp writes, clearing the four keys gives back the earlier properties minus any timestamps |
| `SystemProperties.DecimalStringRoundTrip` | src/main/java/com/peergreen/bootstrap/Bootstrap.java:252-254 | the decimal text stored for a timestamp parses back to the same number |
| `SystemProperties.DecimalString` | src/main/java/com/peergreen/bootstrap/Bootstrap.java:252-253 | the text is '-' exactly for a negative value, followed by decimal digits with no leading zero; zero is "0" |
| `SystemProperties.GetBoolean` | src/main/java/com/peergreen/bootstrap/Bootstrap.java:208 | Boolean.getBoolean is true exactly when the property is set and its lower-case form is "true" |
| `Loaders.ChildCreatedIffReachedByParentSteps` | src/main/java/com/peergreen/bootstrap/Bootstrap.java:229-242 | a thread is child-created exactly when one or more getParent() steps from its context loader reach the bootstrap's loader |
| `Loaders.ContextLoaderItselfNotMatched` | src/main/java/com/peergreen/bootstrap/Bootstrap.java:233-238 | a thread whose context loader is the bootstrap's loader itself is not child-created |
| `Loaders.AncestorsAreShallower` | src/main/java/com/peergreen/bootstrap/Bootstrap.java:234-240 | every loader the walk visits is strictly shorter a chain than the one before, so the walk ends |
| `Loaders.ChildOfMatchedLoaderMatches` | src/main/java/com/peergreen/bootstrap/Bootstrap.java:229-242 | a loader created under a child-created context loader is child-created too |
| `Loaders.DirectChildMatches` | src/main/java/com/peergreen/bootstrap/Bootstrap.java:229-242 | a loader whose parent is the bootstrap's loader is child-created |
| `Launcher.ShutdownActionsExactly` | src/main/java/com/peergreen/bootstrap/Bootstrap.java:205-214 | a thread is warned about exactly when it is in the snapshot, child-created and not a daemon; it is stopped exactly when, in addition, report-only is off |
| `Launcher.StopFollowsWarning` | src/main/java/com/peergreen/bootstrap/Bootstrap.java:207-213 | terminate only warns and stops, and every stop comes right after the warning about the same thread |
| `Launcher.NoLoaderNoActions` | src/main/java/com/peergreen/bootstrap/Bootstrap.java:230-232 | with a null class loader no thread is warned about or stopped |
| `Launcher.StartOrder` | src/main/java/com/peergreen/bootstrap/Bootstrap.java:81-141 | when main is invoked, start's complete action list is: repository created, registration ending in the factory being registered, scan, scan.begin, scan.end, loader created, main.invoke stored, then main invoked with the program's arguments and the new loader as context loader |
| `Launcher.NoScanWithoutFactory` | src/main/java/com/peergreen/bootstrap/Bootstrap.java:109-123 | when the factory cannot be registered, start throws a BootstrapException with no scan, no loader and no main call |
| `Launcher.BootstrapExceptionIff` | src/main/java/com/peergreen/bootstrap/Bootstrap.java:70-145 | start throws a BootstrapException exactly when: registration fails; the scan throws one; the kernel class is found nowhere; the loaded class has no main; or main.invoke throws an exception start catches |
| `Launcher.UncheckedFailureExitsWithZero` | src/main/java/com/peergreen/bootstrap/Bootstrap.java:184-220 | whichever way the factory got registered, a defineClass error for the kernel escapes start unwrapped, and with exit enabled the status is 0 |
| `Launcher.MainFailureExitStatus` | src/main/java/com/peergreen/bootstrap/Bootstrap.java:85-91 | when main.invoke throws, start throws a BootstrapException for IllegalAccess-, IllegalArgument- and InvocationTargetException, and main then exits with -1; any other error escapes start and main exits with 0 |
| `Launcher.ScanFailureLeavesFactoryAndNoLoader` | src/main/java/com/peergreen/bootstrap/Bootstrap.java:126-133 | a scan that throws leaves the factory registered and stores no timestamp. It creates no loader and invokes nothing. main reports an exception only when the scan threw a BootstrapException |
| `Launcher.StartPropertiesOnlyTimestamps` | src/main/java/com/peergreen/bootstrap/Bootstrap.java:81 | start changes no property but the timestamps. scan.end is set exactly when the scan completed, and main.invoke exactly when main is invoked. Each reads back as the clock value it was taken from |
| `Launcher.StartupLeavesNoTimestamps` | src/main/java/com/peergreen/bootstrap/Bootstrap.java:184-200 | over begin, start and terminate, the properties end as before main minus the timestamps, and both switches read during terminate what they read before main |
| `Launcher.KernelTablesAgreeWithResult` | src/main/java/com/peergreen/bootstrap/Bootstrap.java:141 | the kernel is in the new loader's class table exactly when that loader defined it. Its bytes are then gone from the repository, and every other entry stays. A package is defined exactly when the kernel's entry was found and its location is well formed |
| `Launcher.KernelPackageName` | src/main/java/com/peergreen/bootstrap/InsideJarClassLoader.java:103 | the package derived for the kernel class is com.peergreen.kernel.launcher |
| `Launcher.Jvm.AddBootstrapProperty` | src/main/java/com/peergreen/bootstrap/Bootstrap.java:252-258 | the value's decimal text is stored under the namespaced key and nothing else changes |
| `Launcher.Jvm.ClearBootstrapProperties` | src/main/java/com/peergreen/bootstrap/Bootstrap.java:246-250 | exactly the namespaced names of the given keys are removed |
| `Launcher.Jvm.SetUrlStreamHandlerFactory` | src/main/java/com/peergreen/bootstrap/Bootstrap.java:110 | registration succeeds exactly when the slot is empty, and only then fills it |
| `Launcher.Jvm.ResetUrlStreamHandlerFactory` | src/main/java/com/peergreen/bootstrap/Bootstrap.java:116-118 | when reflection allows it the slot becomes empty, else nothing changes |
| `Launcher.Bootstrap.constructor` | src/main/java/com/peergreen/bootstrap/Bootstrap.java:62-64 | a new bootstrap keeps its arguments and has no class loader |
| `Launcher.Bootstrap.RegisterFactory` | src/main/java/com/peergreen/bootstrap/Bootstrap.java:108-123 | the factory for the new repository ends up registered exactly when the slot was empty or the reflective reset succeeded; a taken slot is retried once, after the reset |
| `Launcher.Bootstrap.LoadKernel` | src/main/java/com/peergreen/bootstrap/Bootstrap.java:136-144 | on a fresh loader the kernel class comes from the parent, from the repository, or a ClassNotFoundException becomes a BootstrapException; other errors pass through. The loader's package and class tables, its trace and the repository's entries end as `KernelTables` gives, and the resource lookups are unchanged |
| `Launcher.Bootstrap.Load` | src/main/java/com/peergreen/bootstrap/Bootstrap.java:100-145 | the steps run in the order repository, factory, scan, scan.begin, scan.end, loader (parented on the context loader), kernel class. A failed registration leaves the slot and properties as they were. Once registered, the factory stays installed for the new repository even when the scan throws; a failed scan stores no timestamp and creates no loader. After a completed scan the new loader shares the factory's repository, and its tables are `KernelTables`. The context loader is unchanged |
| `Launcher.Bootstrap.ScanAndLoadKernel` | src/main/java/com/peergreen/bootstrap/Bootstrap.java:126-144 | after the scan: scan.begin and scan.end are stored, a fresh loader over the scanned repository is created under the context loader, and the kernel is loaded through it with result `KernelResult` and tables `KernelTables` |
| `Launcher.Bootstrap.Start` | src/main/java/com/peergreen/bootstrap/Bootstrap.java:70-94 | the result and actions are `StartResult` and `StartEvents`: a missing main throws before main.invoke is stored. The properties end as `StartProperties`. The factory slot is as load left it. The context loader afterwards equals the one before, however main.invoke ends. The loader's tables are `KernelTables` |
| `Launcher.Bootstrap.InvokeMain` | src/main/java/com/peergreen/bootstrap/Bootstrap.java:81-91 | main.invoke is stored and main runs with the bootstrap's arguments and the given loader as context loader. The previous context loader is restored whichever way main.invoke ends. Caught exceptions become a BootstrapException and other errors pass through |
| `Launcher.Bootstrap.IsChildCreatedThread` | src/main/java/com/peergreen/bootstrap/Bootstrap.java:229-242 | the result is false with no class loader, else whether the loader is a strict ancestor of the thread's context loader |
| `Launcher.Bootstrap.Terminate` | src/main/java/com/peergreen/bootstrap/Bootstrap.java:198-222 | the four timestamps are cleared and other properties kept; the thread actions are `ShutdownActions` under the switch read before clearing; then, when exit is enabled, it exits with -1 on exception and 0 otherwise |
| `Launcher.Bootstrap.ReportThreads` | src/main/java/com/peergreen/bootstrap/Bootstrap.java:203-216 | for each thread of the snapshot in order: a warning when it is child-created and not a daemon, then a stop unless report-only is set. The properties are not changed |
| `Launcher.Bootstrap.Launch` | src/main/java/com/peergreen/bootstrap/Bootstrap.java:184-196 | begin is stored, start runs, and terminate always runs with `exception` true exactly when start threw a BootstrapException. Afterwards the properties are the earlier ones minus the timestamps and the context loader is unchanged. The factory start registered stays installed, serving the repository as the kernel load left it |

## Left out

- Concurrency. Parallel `loadClass` calls, class-loading locks and the race between the thread snapshot and threads that are starting are not modelled. Every run is sequential.
- `AccessController.doPrivileged`, the access-control context and protection domains are left out. The wrapping of checked exceptions in `PrivilegedActionException` becomes the `LoadError` the caller sees.
- `getLocation` is not modelled. The code-source URL is a given string.
- `ClassLoading.Attribute`: attribute names are looked up exactly as the map holds them. Java's `Attributes.Name` compares names without regard to case, so a manifest line `sealed: true` seals the package in Java but not in the model.
- Manifest parsing and `URL.openStream` are not modelled. The read is a given outcome per nested jar, and its main attributes are a map keyed by the attribute names as written.
- The repository's scan, its nested-jar URL scheme and `BootstrapURLStreamHandlerFactory` are not part of this model. A completed scan installs a given catalogue. A scan that throws is modelled as leaving the repository empty: what a partial scan leaves behind is not known. `getURL(jarName, path)` is part of the manifest outcome.
- `getPackage` is modelled as a lookup in this loader's package table only. Packages that parent loaders define are not seen.
- `defineClass` is an outcome. On a name this loader already defined, it fails as the JVM does. Bytecode is not interpreted.
- Reflection (`getDeclaredField("factory")`, `setAccessible`, `Method.invoke`) and the kernel's `main` are given outcomes. `main.invoke` ends in one of three ways: it returns, it throws an exception `start` catches, or it throws an error that escapes `start`. Threads that `main` starts show only through the given thread snapshot. After a successful reflective reset, the second registration cannot fail in a sequential run, so that branch of the source has no counterpart.
- `JarStrings.EqualsIgnoreCase`, `JarStrings.CharEqualsIgnoreCaseIffLowered`, `JarStrings.EqualsIgnoreCaseIffLowered`, `JarStrings.TrueIgnoringCaseIff`: case folding covers ASCII letters only. Java folds all Unicode letters, so `"ı".equalsIgnoreCase("I")` holds in Java and not in the model. No non-ASCII character folds to a letter of "true", so the one comparison the loader makes is exact.
- `Launcher.Bootstrap.Launch`, `Launcher.StartupLeavesNoTimestamps`, `Launcher.Bootstrap.Start`, `Launcher.Bootstrap.InvokeMain`, `Launcher.StartPropertiesOnlyTimestamps`: the kernel's `main` is modelled as changing no system property. Terminate reads both switches after `main` has run (`Bootstrap.java:208`, `:218`). The thread actions, the exit status and the final properties these members state therefore assume that the kernel leaves the properties alone.
- `Thread.stop`, `System.exit` and `System.err` output are recorded as events. Printing the stack trace of a BootstrapException is not recorded.
- The `threads != null` test in terminate is always true and has no counterpart.
- Timestamps are given integers. No ordering between them is claimed.
- `addURL` is an empty method in the source and is not modelled.
