/**
 * Script sources (Source, BufferedSource, FileSource) and the SourceManager
 * registry that maps ids to shared references to them.
 *
 * The C++ hierarchy has two concrete classes: a BufferedSource holds its code
 * in memory; a FileSource is a BufferedSource that fills its buffer from a
 * file, eagerly or on first use. Here both are one class whose constant
 * `origin` says which of the two it is. Reading a file is not modelled: each
 * operation that would read one takes the outcome of the read as an argument,
 * `Some(contents)` for a readable file and `None` for one that cannot be opened.
 */
module Sources {
  import opened Wrappers
  import opened Errors

  datatype Origin = InMemory | File(path: string)

  class Source {
    const id: string
    const origin: Origin
    var buffer: string
    /** FileSource::loaded_; always false for an in-memory source. */
    var loaded: bool

    ghost predicate Valid()
      reads this
    {
      origin.InMemory? ==> !loaded
    }

    /** BufferedSource(id, code), both the copying and the moving overload. */
    constructor Buffered(id: string, code: string)
      ensures Valid()
      ensures this.id == id && origin == InMemory && buffer == code && !loaded
    {
      this.id := id;
      origin := InMemory;
      buffer := code;
      loaded := false;
    }

    /** The part of FileSource's constructor that runs before the optional load. */
    constructor Unloaded(id: string, path: string)
      ensures Valid()
      ensures this.id == id && origin == File(path) && buffer == "" && !loaded
    {
      this.id := id;
      origin := File(path);
      buffer := "";
      loaded := false;
    }

    /**
     * FileSource(id, path, defer_load): a file source that is loaded before
     * the constructor returns unless `deferLoad` is set. A failed eager load
     * propagates the FileLoadError out of the constructor, so no source exists.
     */
    static method OpenFile(id: string, path: string, deferLoad: bool, read: Option<string>)
      returns (r: Result<Source, Error>)
      ensures r.Ok? ==> fresh(r.value) && r.value.Valid()
      ensures r.Ok? ==> r.value.id == id && r.value.origin == File(path)
      ensures deferLoad ==> r.Ok? && !r.value.loaded && r.value.buffer == ""
      ensures !deferLoad ==> (r.Ok? <==> read.Some?)
      ensures !deferLoad && r.Ok? ==> r.value.loaded && r.value.buffer == read.value
      ensures r.Err? ==> r.error == FileLoadError(id, path)
    {
      var source := new Source.Unloaded(id, path);
      if !deferLoad {
        var loading := source.Load(read);
        if loading.Fail? {
          return Err(loading.error);
        }
      }
      r := Ok(source);
    }

    /** FileSource(path, defer_load): the path doubles as the id. */
    static method OpenPath(path: string, deferLoad: bool, read: Option<string>)
      returns (r: Result<Source, Error>)
      ensures r.Ok? ==> fresh(r.value) && r.value.Valid()
      ensures r.Ok? ==> r.value.id == path && r.value.origin == File(path)
      ensures deferLoad ==> r.Ok? && !r.value.loaded && r.value.buffer == ""
      ensures !deferLoad ==> (r.Ok? <==> read.Some?)
      ensures !deferLoad && r.Ok? ==> r.value.loaded && r.value.buffer == read.value
      ensures r.Err? ==> r.error == FileLoadError(path, path)
    {
      r := OpenFile(path, path, deferLoad, read);
    }

    /** BufferedSource::buffer(code), the protected setter. */
    method SetBuffer(code: string)
      modifies this
      ensures buffer == code && loaded == old(loaded)
    {
      buffer := code;
    }

    /**
     * FileSource::load: fails with AlreadyLoadedError on a loaded source;
     * otherwise reads the file into the buffer, or fails with FileLoadError
     * and leaves the source as it was.
     */
    method Load(read: Option<string>) returns (r: Outcome<Error>)
      requires origin.File?
      modifies this
      ensures Valid()
      ensures old(loaded) ==> r == Fail(AlreadyLoadedError(id)) && unchanged(this)
      ensures !old(loaded) && read.None? ==> r == Fail(FileLoadError(id, origin.path)) && unchanged(this)
      ensures !old(loaded) && read.Some? ==> r == Pass && loaded && buffer == read.value
      ensures r.Pass? <==> !old(loaded) && read.Some?
    {
      if loaded {
        return Fail(AlreadyLoadedError(id));
      }
      if read.Some? {
        SetBuffer(read.value);
        loaded := true;
        r := Pass;
      } else {
        r := Fail(FileLoadError(id, origin.path));
      }
    }

    /**
     * What `code()` yields from the current state: the buffer of an in-memory
     * or already loaded source, otherwise the outcome of loading it.
     */
    function CodeOutcome(read: Option<string>): Result<string, Error>
      reads this
    {
      if origin.InMemory? || loaded then Ok(buffer)
      else if read.Some? then Ok(read.value)
      else Err(FileLoadError(id, origin.path))
    }

    /**
     * The `loaded` flag and buffer that `code()` leaves behind: afterwards
     * the buffer holds the code it returned, and a file source that returned
     * code is loaded; a failed load, or a source that needs none, changes
     * nothing.
     */
    function AfterCode(read: Option<string>): (after: (bool, string))
      reads this
      ensures CodeOutcome(read).Ok? ==> after.1 == CodeOutcome(read).value
      ensures CodeOutcome(read).Ok? && origin.File? ==> after.0
      ensures CodeOutcome(read).Err? || origin.InMemory? || loaded ==> after == (loaded, buffer)
    {
      if origin.File? && !loaded && read.Some? then (true, read.value) else (loaded, buffer)
    }

    /**
     * BufferedSource::code and FileSource::code: a file source is loaded first
     * if it is not loaded yet, so its file is consulted at most until one load
     * succeeds; after that the read outcome is ignored.
     */
    method Code(read: Option<string>) returns (r: Result<string, Error>)
      modifies this
      ensures Valid() == old(Valid())
      ensures r == old(CodeOutcome(read))
      ensures (loaded, buffer) == old(AfterCode(read))
      ensures origin.InMemory? || old(loaded) ==> unchanged(this)
      ensures origin.File? && r.Ok? ==> loaded && buffer == r.value
      ensures r.Err? ==> unchanged(this)
    {
      if origin.File? && !loaded {
        var loading := Load(read);
        if loading.Fail? {
          return Err(loading.error);
        }
      }
      r := Ok(buffer);
    }
  }

  /** SourceManager: the registry of sources by id. */
  class SourceManager {
    var sources: map<string, Source>

    /** Every source is registered under its own id. */
    ghost predicate Valid()
      reads this
    {
      forall id :: id in sources ==> sources[id].id == id
    }

    constructor ()
      ensures Valid() && sources == map[]
    {
      sources := map[];
    }

    predicate HasSource(id: string)
      reads this
    {
      id in sources
    }

    /** get_source: the registered reference, or NoSuchSourceError. */
    function GetSource(id: string): (r: Result<Source, Error>)
      requires Valid()
      reads this
      ensures r.Ok? <==> HasSource(id)
      ensures r.Ok? ==> r.value.id == id && sources[id] == r.value
      ensures r.Err? ==> r.error == NoSuchSourceError(id) && r.error.Message() == "unknown source: " + id
    {
      if id !in sources then Err(NoSuchSourceError(id)) else Ok(sources[id])
    }

    /**
     * add_source: registers `source` under its id, or fails with
     * DuplicateSourceError and leaves the registry unchanged.
     */
    method AddSource(source: Source) returns (r: Result<Source, Error>)
      requires Valid()
      modifies this
      ensures Valid()
      ensures r.Ok? <==> !old(HasSource(source.id))
      ensures r.Ok? ==> r.value == source && sources == old(sources)[source.id := source]
      ensures r.Err? ==> r == Err(DuplicateSourceError(source.id)) && sources == old(sources)
    {
      var id := source.id;
      if HasSource(id) {
        return Err(DuplicateSourceError(id));
      }
      sources := sources[id := source];
      r := Ok(source);
    }

    /** create_source(id, buffer): a new in-memory source, registered. */
    method CreateSource(id: string, code: string) returns (r: Result<Source, Error>)
      requires Valid()
      modifies this
      ensures Valid()
      ensures r.Ok? <==> !old(HasSource(id))
      ensures r.Ok? ==> fresh(r.value) && r.value.Valid() && r.value.origin == InMemory && r.value.buffer == code
      ensures r.Ok? ==> sources == old(sources)[id := r.value] && GetSource(id) == Ok(r.value)
      ensures r.Err? ==> r.error == DuplicateSourceError(id) && sources == old(sources)
    {
      var source := new Source.Buffered(id, code);
      r := AddSource(source);
    }

    /**
     * create_source_from_file(id, path, defer_load). The FileSource is built,
     * and with an eager load read, before the registry is consulted: a failed
     * eager load reports FileLoadError even for an id that is already taken.
     */
    method CreateSourceFromFile(id: string, path: string, deferLoad: bool, read: Option<string>)
      returns (r: Result<Source, Error>)
      requires Valid()
      modifies this
      ensures Valid()
      ensures !deferLoad && read.None? ==> r == Err(FileLoadError(id, path)) && sources == old(sources)
      ensures (deferLoad || read.Some?) ==> (r.Ok? <==> !old(HasSource(id)))
      ensures (deferLoad || read.Some?) && r.Err? ==> r.error == DuplicateSourceError(id) && sources == old(sources)
      ensures r.Ok? ==> fresh(r.value) && r.value.Valid() && r.value.id == id && r.value.origin == File(path)
      ensures r.Ok? ==> r.value.loaded == !deferLoad && sources == old(sources)[id := r.value]
      ensures r.Ok? && deferLoad ==> r.value.buffer == ""
      ensures r.Ok? && !deferLoad ==> read.Some? && r.value.buffer == read.value
    {
      var built := Source.OpenFile(id, path, deferLoad, read);
      if built.Err? {
        return Err(built.error);
      }
      r := AddSource(built.value);
    }

    /** create_source_from_file(path, defer_load): the path is the id. */
    method CreateSourceFromPath(path: string, deferLoad: bool, read: Option<string>)
      returns (r: Result<Source, Error>)
      requires Valid()
      modifies this
      ensures Valid()
      ensures !deferLoad && read.None? ==> r == Err(FileLoadError(path, path)) && sources == old(sources)
      ensures (deferLoad || read.Some?) ==> (r.Ok? <==> !old(HasSource(path)))
      ensures (deferLoad || read.Some?) && r.Err? ==> r.error == DuplicateSourceError(path) && sources == old(sources)
      ensures r.Ok? ==> fresh(r.value) && r.value.Valid() && r.value.id == path && r.value.origin == File(path)
      ensures r.Ok? ==> r.value.loaded == !deferLoad && sources == old(sources)[path := r.value]
      ensures r.Ok? && deferLoad ==> r.value.buffer == ""
      ensures r.Ok? && !deferLoad ==> read.Some? && r.value.buffer == read.value
    {
      r := CreateSourceFromFile(path, path, deferLoad, read);
    }

    /**
     * remove_source(id): drops exactly that entry, or fails with
     * NoSuchSourceError and leaves the registry unchanged. The source itself
     * lives on in every run that still holds it.
     */
    method RemoveSource(id: string) returns (r: Outcome<Error>)
      requires Valid()
      modifies this
      ensures Valid()
      ensures r.Pass? <==> old(HasSource(id))
      ensures r.Pass? ==> sources == old(sources) - {id}
      ensures r.Fail? ==> r.error == NoSuchSourceError(id) && sources == old(sources)
    {
      if id !in sources {
        return Fail(NoSuchSourceError(id));
      }
      sources := sources - {id};
      r := Pass;
    }

    /**
     * remove_source(SourceRef): removes whatever is registered under the
     * source's id, which need not be that very source.
     */
    method RemoveSourceRef(source: Source) returns (r: Outcome<Error>)
      requires Valid()
      modifies this
      ensures Valid()
      ensures r.Pass? <==> old(HasSource(source.id))
      ensures r.Pass? ==> sources == old(sources) - {source.id}
      ensures r.Fail? ==> r.error == NoSuchSourceError(source.id) && sources == old(sources)
    {
      r := RemoveSource(source.id);
    }
  }

  /** Adding a fresh id and removing it again restores the registry. */
  lemma AddThenRemoveRestores(m: map<string, Source>, id: string, s: Source)
    requires id !in m
    ensures m[id := s] - {id} == m
  {
    assert (m[id := s] - {id}).Keys == m.Keys;
  }
}
