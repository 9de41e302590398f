/** `DocumentCreator`: the choice between a single-page document, a
    multi-page one built in memory and one built through a temporary file,
    with the fallback from memory to file. The page builders and the photo
    compression it calls are not part of this model; they are parameters
    that may raise. */
module Creator {
  import opened Common
  import Pagination
  import TempManager

  /** The fields `__init__` fixes and hands to every builder. */
  datatype Settings = Settings(title: Option<string>, rows: int, cols: int, sizeOption: string)

  /** `compress_photos_for_document`, `create_single_page_document` followed
      by a save to a buffer, and `create_multi_page_document` followed by a
      save to a buffer (`viaFile == false`) or to a file read back
      (`viaFile == true`). */
  datatype Builders = Builders(
    compress: seq<Bytes> -> Result<seq<Bytes>, PyError>,
    singlePage: (seq<Bytes>, Settings) -> Result<Bytes, PyError>,
    multiPage: (seq<Bytes>, Settings, bool) -> Result<Bytes, PyError>)

  datatype Route = SinglePage | InMemory | ViaTempFile

  /** The branch `create_document` and `_create_multi_page` take for `count`
      compressed photos. */
  function ChooseRoute(rows: int, cols: int, useTempFiles: bool, count: nat): (r: Route)
    ensures r == SinglePage <==> rows * cols <= 0 || count <= rows * cols
    ensures r == ViaTempFile <==> rows * cols > 0 && count > rows * cols && useTempFiles && count > 10
  {
    var perPage := rows * cols;
    if perPage <= 0 || count <= perPage then SinglePage
    else if useTempFiles && count > 10 then ViaTempFile
    else InMemory
  }

  /** What a build returns, and whether it claimed a temporary file. */
  datatype Outcome = Outcome(result: Result<Bytes, PyError>, viaFile: bool)

  /** `create_document(photos)`: compress, then route; an in-memory failure
      is retried through a file, a failure through a file is raised. */
  function Create(b: Builders, s: Settings, useTempFiles: bool, photos: seq<Bytes>): (o: Outcome)
    ensures b.compress(photos).Failure? ==> o == Outcome(Failure(b.compress(photos).error), false)
    ensures b.compress(photos).Success? ==>
      var c := b.compress(photos).value;
      match ChooseRoute(s.rows, s.cols, useTempFiles, |c|)
      case SinglePage => o == Outcome(b.singlePage(c, s), false)
      case ViaTempFile => o == Outcome(b.multiPage(c, s, true), true)
      case InMemory =>
        && (o.viaFile <==> b.multiPage(c, s, false).Failure?)
        && o.result == (if o.viaFile then b.multiPage(c, s, true) else b.multiPage(c, s, false))
  {
    match b.compress(photos)
    case Failure(e) => Outcome(Failure(e), false)
    case Success(c) =>
      match ChooseRoute(s.rows, s.cols, useTempFiles, |c|)
      case SinglePage => Outcome(b.singlePage(c, s), false)
      case ViaTempFile => Outcome(b.multiPage(c, s, true), true)
      case InMemory =>
        var inMemory := b.multiPage(c, s, false);
        if inMemory.Success? then Outcome(inMemory, false)
        else Outcome(b.multiPage(c, s, true), true)
  }

  /** A grid of capacity `k` gives at most one page exactly when the photos fit it. */
  lemma {:induction false} OnePageIffFits<T>(photos: seq<T>, k: nat)
    requires k > 0
    ensures |Pagination.Chunks(photos, k)| <= 1 <==> |photos| <= k
  {
    if |photos| > k {
      var rest := photos[k..];
      assert rest != [];
      assert |Pagination.Chunks(rest, k)| >= 1;
    } else if photos != [] {
      assert photos[Min(k, |photos|)..] == [];
    }
  }

  /** The single-page branch is taken exactly when `split_into_pages` would
      give one page or none. */
  lemma SinglePageIffOnePage<T>(photos: seq<T>, rows: int, cols: int, useTempFiles: bool)
    ensures ChooseRoute(rows, cols, useTempFiles, |photos|) == SinglePage
      <==> |Pagination.Pages(photos, rows, cols)| <= 1
  {
    if rows * cols > 0 {
      OnePageIffFits(photos, rows * cols);
    }
  }

  /** A temporary file is claimed only for photos that need two or more pages. */
  lemma TempFileOnlyForSeveralPages(b: Builders, s: Settings, useTempFiles: bool, photos: seq<Bytes>)
    requires Create(b, s, useTempFiles, photos).viaFile
    ensures b.compress(photos).Success?
    ensures |Pagination.Pages(b.compress(photos).value, s.rows, s.cols)| >= 2
  {
    SinglePageIffOnePage(b.compress(photos).value, s.rows, s.cols, useTempFiles);
  }

  class DocumentCreator {
    const title: Option<string>
    const rows: int
    const cols: int
    const sizeOption: string
    const useTempFiles: bool
    const tempManager: TempManager.TempFileManager
    const builders: Builders

    function Config(): Settings {
      Settings(title, rows, cols, sizeOption)
    }

    /** The path `mktemp(suffix=".docx")` yields when it makes up `name`. */
    function TempPath(name: string): TempManager.Path {
      tempManager.base + ["tmp" + name + ".docx"]
    }

    /** `DocumentCreator(title=None, rows=1, cols=1, size_option="medium",
        use_temp_files=True)`; the manager is the process-wide one. */
    constructor (slot: TempManager.ManagerSlot, fs: TempManager.FileSystem, builders: Builders,
                 managerName: string, now: int,
                 title: Option<string> := None, rows: int := 1, cols: int := 1,
                 sizeOption: string := "medium", useTempFiles: bool := true)
      requires slot.Valid()
      modifies slot, fs
      ensures slot.Valid() && tempManager.Valid()
      ensures tempManager == slot.instance
      ensures old(slot.instance) != null ==> tempManager == old(slot.instance)
      ensures this.title == title && this.rows == rows && this.cols == cols
      ensures this.sizeOption == sizeOption && this.useTempFiles == useTempFiles
      ensures this.builders == builders
    {
      this.title := title;
      this.rows := rows;
      this.cols := cols;
      this.sizeOption := sizeOption;
      this.useTempFiles := useTempFiles;
      this.builders := builders;
      var m := slot.Obtain(fs, managerName, now);
      tempManager := m;
    }

    /** `_create_via_temp_file(photos)`: a fresh temporary path is tracked
        (and stays tracked), the document is saved there and read back; a
        failure is raised to the caller. */
    method CreateViaTempFile(photos: seq<Bytes>, name: string, now: int) returns (r: Result<Bytes, PyError>)
      requires tempManager.Valid()
      modifies tempManager, tempManager.fs
      ensures tempManager.Valid()
      ensures r == builders.multiPage(photos, Config(), true)
      ensures tempManager.files == old(tempManager.files) + {TempPath(name)}
      ensures tempManager.dirs == old(tempManager.dirs)
      ensures tempManager.fs.files == (if r.Success? then old(tempManager.fs.files)[TempPath(name) := now]
        else old(tempManager.fs.files))
      ensures tempManager.fs.dirs == old(tempManager.fs.dirs)
    {
      var path := tempManager.CreateTempFile(".docx", name);
      r := builders.multiPage(photos, Config(), true);
      if r.Success? {
        tempManager.fs.Write(path, now);
      }
    }

    /** `_create_in_memory(photos)`: on failure, the temporary-file path. */
    method CreateInMemory(photos: seq<Bytes>, name: string, now: int) returns (r: Result<Bytes, PyError>)
      requires tempManager.Valid()
      modifies tempManager, tempManager.fs
      ensures tempManager.Valid()
      ensures var inMemory := builders.multiPage(photos, Config(), false);
        && r == (if inMemory.Success? then inMemory else builders.multiPage(photos, Config(), true))
        && tempManager.files == old(tempManager.files) + (if inMemory.Success? then {} else {TempPath(name)})
        && tempManager.fs.files == (if inMemory.Failure? && r.Success?
          then old(tempManager.fs.files)[TempPath(name) := now] else old(tempManager.fs.files))
      ensures tempManager.dirs == old(tempManager.dirs) && tempManager.fs.dirs == old(tempManager.fs.dirs)
    {
      r := builders.multiPage(photos, Config(), false);
      if r.Failure? {
        r := CreateViaTempFile(photos, name, now);
      }
    }

    /** `_create_multi_page(photos)`. */
    method CreateMultiPage(photos: seq<Bytes>, name: string, now: int) returns (r: Result<Bytes, PyError>, viaFile: bool)
      requires tempManager.Valid()
      modifies tempManager, tempManager.fs
      ensures tempManager.Valid()
      ensures viaFile <==> (useTempFiles && |photos| > 10) || builders.multiPage(photos, Config(), false).Failure?
      ensures r == (if viaFile then builders.multiPage(photos, Config(), true) else builders.multiPage(photos, Config(), false))
      ensures tempManager.files == old(tempManager.files) + (if viaFile then {TempPath(name)} else {})
      ensures tempManager.fs.files == (if viaFile && r.Success?
        then old(tempManager.fs.files)[TempPath(name) := now] else old(tempManager.fs.files))
      ensures tempManager.dirs == old(tempManager.dirs) && tempManager.fs.dirs == old(tempManager.fs.dirs)
    {
      if useTempFiles && |photos| > 10 {
        r := CreateViaTempFile(photos, name, now);
        viaFile := true;
      } else {
        viaFile := builders.multiPage(photos, Config(), false).Failure?;
        r := CreateInMemory(photos, name, now);
      }
    }

    /** `create_document(photos)`: the outcome `Create` describes, with the
        temporary path tracked exactly when a file was used. */
    method CreateDocument(photos: seq<Bytes>, name: string, now: int) returns (r: Result<Bytes, PyError>)
      requires tempManager.Valid()
      modifies tempManager, tempManager.fs
      ensures tempManager.Valid()
      ensures var o := Create(builders, Config(), useTempFiles, photos);
        && r == o.result
        && tempManager.files == old(tempManager.files) + (if o.viaFile then {TempPath(name)} else {})
        && tempManager.fs.files == (if o.viaFile && r.Success?
          then old(tempManager.fs.files)[TempPath(name) := now] else old(tempManager.fs.files))
      ensures tempManager.dirs == old(tempManager.dirs) && tempManager.fs.dirs == old(tempManager.fs.dirs)
    {
      var compressed := builders.compress(photos);
      if compressed.Failure? {
        return Failure(compressed.error);
      }
      var c := compressed.value;
      var perPage := rows * cols;
      if perPage <= 0 || |c| <= perPage {
        r := builders.singlePage(c, Config());
      } else {
        var viaFile;
        r, viaFile := CreateMultiPage(c, name, now);
      }
    }

    /** `create_table(photos)`: the deprecated alias, with exactly the
        behaviour of `create_document`. */
    method CreateTable(photos: seq<Bytes>, name: string, now: int) returns (r: Result<Bytes, PyError>)
      requires tempManager.Valid()
      modifies tempManager, tempManager.fs
      ensures tempManager.Valid()
      ensures var o := Create(builders, Config(), useTempFiles, photos);
        && r == o.result
        && tempManager.files == old(tempManager.files) + (if o.viaFile then {TempPath(name)} else {})
        && tempManager.fs.files == (if o.viaFile && r.Success?
          then old(tempManager.fs.files)[TempPath(name) := now] else old(tempManager.fs.files))
      ensures tempManager.dirs == old(tempManager.dirs) && tempManager.fs.dirs == old(tempManager.fs.dirs)
    {
      r := CreateDocument(photos, name, now);
    }
  }
}
