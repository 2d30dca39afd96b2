/**
 * The interface of the entries repository that InsideJarClassLoader and
 * Bootstrap use. How the repository scans the container and resolves its
 * nested-jar URLs is not part of this model: a scan installs a given catalog,
 * and lookups answer from it.
 */
module Repository {
  import opened Wrappers

  newtype byte = x: int | 0 <= x < 256

  /** The bytes of one class file and the location of the jar that holds it. */
  datatype ByteEntry = ByteEntry(bytes: seq<byte>, location: string)

  /** What a scan of the container finds. */
  datatype Catalog = Catalog(
    entries: map<string, ByteEntry>,     // class name -> class bytes
    resourceUrl: map<string, string>,    // resource name -> its URL
    resourceUrls: map<string, seq<string>>) // resource name -> every matching URL

  class EntriesRepository {
    /** The URL of the container jar. */
    const location: string
    var entries: map<string, ByteEntry>
    var resourceUrl: map<string, string>
    var resourceUrls: map<string, seq<string>>

    constructor (location: string)
      ensures this.location == location
      ensures entries == map[] && resourceUrl == map[] && resourceUrls == map[]
    {
      this.location := location;
      entries, resourceUrl, resourceUrls := map[], map[], map[];
    }

    /** scan(): catalogues the container. */
    method Scan(catalog: Catalog)
      modifies this
      ensures entries == catalog.entries
      ensures resourceUrl == catalog.resourceUrl && resourceUrls == catalog.resourceUrls
    {
      entries, resourceUrl, resourceUrls := catalog.entries, catalog.resourceUrl, catalog.resourceUrls;
    }

    /** getByteEntry(name): the entry of a class, or null. */
    function GetByteEntry(name: string): (e: Option<ByteEntry>)
      reads this
      ensures e.Some? <==> name in entries
      ensures e.Some? ==> e.value == entries[name]
    {
      if name in entries then Some(entries[name]) else None
    }

    /** removeClassEntry(name): drops the bytes of a class once it is defined. */
    method RemoveClassEntry(name: string)
      modifies this
      ensures entries == old(entries) - {name}
      ensures resourceUrl == old(resourceUrl) && resourceUrls == old(resourceUrls)
    {
      entries := entries - {name};
    }

    /** getURL(name): the URL of a resource, or null. */
    function GetURL(name: string): (url: Option<string>)
      reads this
      ensures url.Some? <==> name in resourceUrl
      ensures url.Some? ==> url.value == resourceUrl[name]
    {
      if name in resourceUrl then Some(resourceUrl[name]) else None
    }

    /** getURLs(name): every URL of a resource, as a fresh enumeration. */
    function GetURLs(name: string): (urls: seq<string>)
      reads this
      ensures name in resourceUrls ==> urls == resourceUrls[name]
      ensures name !in resourceUrls ==> urls == []
    {
      if name in resourceUrls then resourceUrls[name] else []
    }
  }
}
