/**
 * InsideJarClassLoader: defines classes from the bytes the entries repository
 * holds for them, defines the package of each class once, from the manifest of
 * the nested jar the class comes from, and drops the bytes of a class once the
 * class is defined. The JVM's class and package tables are the loader's
 * `classes` and `packages`; `trace` records the JVM actions in call order.
 */
module ClassLoading {
  import opened Wrappers
  import opened JarStrings
  import opened Loaders
  import opened Repository

  /** Where definePackage reads the manifest inside the nested jar. */
  const ManifestPath: string := "META-INF/MANIFEST.MF"

  // The main-section attribute names definePackage reads.
  const SpecificationTitle: string := "Specification-Title"
  const SpecificationVersion: string := "Specification-Version"
  const SpecificationVendor: string := "Specification-Vendor"
  const ImplementationTitle: string := "Implementation-Title"
  const ImplementationVersion: string := "Implementation-Version"
  const ImplementationVendor: string := "Implementation-Vendor"
  const Sealed: string := "Sealed"

  /** The outcome of reading the manifest of a nested jar. */
  datatype ManifestOutcome =
    | Read(mainAttributes: map<string, string>)
    | MalformedUrl   // getURL(jarName, ManifestPath) threw MalformedURLException
    | Unreadable     // opening the stream or parsing the manifest threw IOException

  /** A package as the eight-argument definePackage records it. */
  datatype PackageRecord = PackageRecord(
    name: string,
    specTitle: Option<string>,
    specVersion: Option<string>,
    specVendor: Option<string>,
    implTitle: Option<string>,
    implVersion: Option<string>,
    implVendor: Option<string>,
    sealBase: Option<string>)

  /** A class defined by this loader, with the bytes and code source it was defined from. */
  datatype ClassRecord = ClassRecord(name: string, bytes: seq<byte>, codeSource: string)

  /** What defineClass does with the bytes handed to it. */
  datatype DefineOutcome = Defines | Rejects  // Rejects: ClassFormatError, LinkageError or SecurityException

  /** Why findClass or loadClass did not return a class. */
  datatype LoadError =
    | ClassNotFound(name: string)         // ClassNotFoundException
    | BadLocation(location: string)       // StringIndexOutOfBoundsException from the jar-name substring
    | DefinitionRejected(name: string)    // the error thrown by defineClass

  /** The JVM actions the loader performs, in order. */
  datatype LoaderEvent =
    | PackageDefined(package: PackageRecord)
    | ClassDefined(name: string)
    | EntryEvicted(name: string)

  /** A loader's package and class tables, its trace and its repository's class entries, as one value. */
  datatype LoaderTables = LoaderTables(
    packages: map<string, PackageRecord>,
    classes: map<string, ClassRecord>,
    trace: seq<LoaderEvent>,
    entries: map<string, ByteEntry>)

  /** Attributes.getValue: the value of a main attribute, or null. */
  function Attribute(attributes: map<string, string>, name: string): (r: Option<string>)
    ensures r.Some? <==> name in attributes
    ensures r.Some? ==> r.value == attributes[name]
  {
    if name in attributes then Some(attributes[name]) else None
  }

  /** The package with no attributes, defined when the manifest cannot be read. */
  function UnsealedEmpty(packageName: string): PackageRecord {
    PackageRecord(packageName, None, None, None, None, None, None, None)
  }

  /**
   * The package definePackage creates for `packageName` from the manifest read
   * for a class at `location`.
   */
  function PackageFor(packageName: string, location: string, manifest: ManifestOutcome): (p: PackageRecord)
    ensures p.name == packageName
    ensures !manifest.Read? ==> p == UnsealedEmpty(packageName)
    ensures manifest.Read? ==>
      var attributes := manifest.mainAttributes;
      && p.specTitle == Attribute(attributes, SpecificationTitle)
      && p.specVersion == Attribute(attributes, SpecificationVersion)
      && p.specVendor == Attribute(attributes, SpecificationVendor)
      && p.implTitle == Attribute(attributes, ImplementationTitle)
      && p.implVersion == Attribute(attributes, ImplementationVersion)
      && p.implVendor == Attribute(attributes, ImplementationVendor)
  {
    match manifest
    case Read(attributes) =>
      var sealed := IsTrueIgnoringCase(Attribute(attributes, Sealed));
      PackageRecord(packageName,
        Attribute(attributes, SpecificationTitle),
        Attribute(attributes, SpecificationVersion),
        Attribute(attributes, SpecificationVendor),
        Attribute(attributes, ImplementationTitle),
        Attribute(attributes, ImplementationVersion),
        Attribute(attributes, ImplementationVendor),
        if sealed then Some(location) else None)
    case _ => UnsealedEmpty(packageName)
  }

  /**
   * A package is sealed, at the location of the class that defined it, exactly
   * when the manifest was read and its Sealed attribute is "true" in any case.
   */
  lemma SealBaseIff(packageName: string, location: string, manifest: ManifestOutcome)
    ensures PackageFor(packageName, location, manifest).sealBase.Some? <==>
      manifest.Read? && Attribute(manifest.mainAttributes, Sealed).Some? &&
      Lowered(Attribute(manifest.mainAttributes, Sealed).value) == "true"
    ensures PackageFor(packageName, location, manifest).sealBase.Some? ==>
      PackageFor(packageName, location, manifest).sealBase.value == location
  {
    if manifest.Read? {
      TrueIgnoringCaseIff(Attribute(manifest.mainAttributes, Sealed));
    }
  }

  class InsideJarClassLoader {
    const repository: EntriesRepository
    const id: nat
    /** The parent class loader: the context class loader at creation time. */
    const parent: LoaderChain
    var packages: map<string, PackageRecord>
    var classes: map<string, ClassRecord>
    var trace: seq<LoaderEvent>

    constructor (id: nat, parent: LoaderChain, repository: EntriesRepository)
      ensures this.repository == repository && this.id == id && this.parent == parent
      ensures packages == map[] && classes == map[] && trace == []
    {
      this.repository, this.id, this.parent := repository, id, parent;
      packages, classes, trace := map[], map[], [];
    }

    /** This loader as a link of the parent chain. */
    function Node(): LoaderChain {
      Loader(id, parent)
    }

    /** The tables of this loader and the class entries of its repository. */
    function Tables(): LoaderTables
      reads this, repository
    {
      LoaderTables(packages, classes, trace, repository.entries)
    }

    /**
     * definePackage(className, location): defines the package of `className`
     * unless one of that name exists. `readManifest` gives the outcome of
     * reading the manifest of each nested jar.
     */
    method DefinePackage(className: string, location: string, readManifest: string -> ManifestOutcome)
      returns (r: Result<(), LoadError>)
      modifies this
      ensures classes == old(classes)
      ensures PackageName(className) in old(packages) ==>
        r == Success(()) && packages == old(packages) && trace == old(trace)
      ensures PackageName(className) !in old(packages) && JarName(location).None? ==>
        r == Failure(BadLocation(location)) && packages == old(packages) && trace == old(trace)
      ensures PackageName(className) !in old(packages) && JarName(location).Some? ==>
        var p := PackageFor(PackageName(className), location, readManifest(JarName(location).value));
        r == Success(()) && packages == old(packages)[PackageName(className) := p] &&
        trace == old(trace) + [PackageDefined(p)]
    {
      var packageName := PackageName(className);
      if packageName !in packages {
        var jarName := JarName(location);
        if jarName.None? {
          return Failure(BadLocation(location));
        }
        var p := PackageFor(packageName, location, readManifest(jarName.value));
        packages := packages[packageName := p];
        trace := trace + [PackageDefined(p)];
      }
      r := Success(());
    }

    /**
     * The effect of findClass(name): the state change and result it promises,
     * from the state before the call to the state after it.
     */
    twostate predicate FoundClass(name: string, readManifest: string -> ManifestOutcome, define: DefineOutcome,
                                  new r: Result<ClassRecord, LoadError>)
      reads this, repository
    {
      && repository.resourceUrl == old(repository.resourceUrl)
      && repository.resourceUrls == old(repository.resourceUrls)
      && if name !in old(repository.entries) then
           && r == Failure(ClassNotFound(name))
           && packages == old(packages) && classes == old(classes) && trace == old(trace)
           && repository.entries == old(repository.entries)
         else
           var entry := old(repository.entries)[name];
           var packageName := PackageName(name);
           if packageName !in old(packages) && JarName(entry.location).None? then
             && r == Failure(BadLocation(entry.location))
             && packages == old(packages) && classes == old(classes) && trace == old(trace)
             && repository.entries == old(repository.entries)
           else
             var created := if packageName in old(packages) then None
                            else Some(PackageFor(packageName, entry.location, readManifest(JarName(entry.location).value)));
             var packageEvents := if created.Some? then [PackageDefined(created.value)] else [];
             && packages == (if created.Some? then old(packages)[packageName := created.value] else old(packages))
             && if define.Rejects? || name in old(classes) then
                  && r == Failure(DefinitionRejected(name))
                  && classes == old(classes)
                  && repository.entries == old(repository.entries)
                  && trace == old(trace) + packageEvents
                else
                  && r == Success(ClassRecord(name, entry.bytes, entry.location))
                  && classes == old(classes)[name := r.value]
                  && repository.entries == old(repository.entries) - {name}
                  && trace == old(trace) + packageEvents + [ClassDefined(name), EntryEvicted(name)]
    }

    /**
     * findClass(name): defines the package, then the class, then evicts the
     * class bytes from the repository. `define` is what defineClass does with
     * the bytes; defining a class a second time is rejected as the JVM does.
     */
    method FindClass(name: string, readManifest: string -> ManifestOutcome, define: DefineOutcome)
      returns (r: Result<ClassRecord, LoadError>)
      modifies this, repository
      ensures FoundClass(name, readManifest, define, r)
    {
      var entry := repository.GetByteEntry(name);
      if entry.None? {
        return Failure(ClassNotFound(name));
      }
      var defined := DefinePackage(name, entry.value.location, readManifest);
      if defined.Failure? {
        return Failure(defined.error);
      }
      if define.Rejects? || name in classes {
        return Failure(DefinitionRejected(name));
      }
      var c := ClassRecord(name, entry.value.bytes, entry.value.location);
      classes := classes[name := c];
      trace := trace + [ClassDefined(name)];
      repository.RemoveClassEntry(name);
      trace := trace + [EntryEvicted(name)];
      r := Success(c);
    }

    /**
     * loadClass(name) as ClassLoader runs it: a class this loader already
     * defined, else the parent's answer (`ambient`), else findClass.
     */
    method LoadClass(name: string, ambient: map<string, ClassRecord>,
                     readManifest: string -> ManifestOutcome, define: DefineOutcome)
      returns (r: Result<ClassRecord, LoadError>)
      modifies this, repository
      ensures name in old(classes) ==> r == Success(old(classes)[name]) && unchanged(this, repository)
      ensures name !in old(classes) && name in ambient ==> r == Success(ambient[name]) && unchanged(this, repository)
      ensures name !in old(classes) && name !in ambient ==> FoundClass(name, readManifest, define, r)
    {
      if name in classes {
        return Success(classes[name]);
      }
      if name in ambient {
        return Success(ambient[name]);
      }
      r := FindClass(name, readManifest, define);
    }

    /** findResource(name): the repository's URL for the resource, unchanged. */
    function FindResource(name: string): (url: Option<string>)
      reads this, repository
      ensures url == repository.GetURL(name)
    {
      repository.GetURL(name)
    }

    /** findResources(name): the repository's URLs for the resource, unchanged. */
    function FindResources(name: string): (urls: seq<string>)
      reads this, repository
      ensures urls == repository.GetURLs(name)
    {
      repository.GetURLs(name)
    }
  }
}
