/** The QiFileInputStream replacements of source/patch.c and the table of
    symbols they are installed on. The host file layer (sceLibcBridge_fopen,
    fseek, ftell, fclose) is a map from file name to size plus handles that
    remember their position and whether they were closed. */
module Patch {
  import opened CStrings

  /** The storage prefix whose presence anywhere in a path marks it as already
      resolved. */
  const StoragePrefix := "ux0:"

  /** Where the game's assets are installed. */
  const AssetsRoot := "ux0:data/smash_hit/assets"

  /** Size of the `full_fname` buffer, terminator included. */
  const NameBufferSize := 512

  /** `strstr(path, "ux0:") != NULL` */
  predicate MentionsStorage(path: string)
  {
    Contains(path, StoragePrefix)
  }

  /** The file name the open hooks pass to the host file layer. */
  function FullName(path: string): string
  {
    if !MentionsStorage(path) then
      if |path| > 0 && path[0] == '/' then AssetsRoot + path
      else AssetsRoot + "/" + path
    else path
  }

  /** A path that mentions the storage prefix anywhere is used unchanged; any
      other path is placed under the assets root with exactly one separator
      added in between. */
  lemma FullNameShape(path: string)
    ensures MentionsStorage(path) ==> FullName(path) == path
    ensures !MentionsStorage(path) ==>
              FullName(path) == AssetsRoot + "/" +
                (if |path| > 0 && path[0] == '/' then path[1..] else path)
  {
    if !MentionsStorage(path) && |path| > 0 && path[0] == '/' {
      assert path == "/" + path[1..];
    }
  }

  /** Every full name mentions the storage prefix, so normalising twice
      changes nothing. */
  lemma FullNameIdempotent(path: string)
    ensures MentionsStorage(FullName(path))
    ensures FullName(FullName(path)) == FullName(path)
  {
    var full := FullName(path);
    if !MentionsStorage(path) {
      assert full[..|StoragePrefix|] == StoragePrefix;
      ContainsPrefix(full, StoragePrefix);
    }
  }

  /** The storage test is a substring test, not a prefix test: the prefix
      anywhere in a path keeps the path as it is. */
  lemma PrefixAnywhereKeepsPath(before: string, after: string)
    ensures FullName(before + StoragePrefix + after) == before + StoragePrefix + after
  {
    var p := before + StoragePrefix + after;
    ContainsIff(p, StoragePrefix);
    assert p[|before|..|before| + |StoragePrefix|] == StoragePrefix;
    assert OccursAt(p, StoragePrefix, |before|);
  }

  /** QiString: heap data plus allocated size and length; the inline cache of
      the original layout is not modelled. */
  datatype QiString = QiString(data: string, allocatedSize: int, length: int)

  /** makeQiString: a copy of `s` whose allocated size and length are its strlen. */
  function MakeQiString(s: string): (q: QiString)
    ensures q.data == s
    ensures q.length == |s| && q.allocatedSize == q.length
  {
    QiString(s, |s|, |s|)
  }

  /** The largest value of the host's 32-bit `long`. */
  const LongMax := 0x7FFF_FFFF

  /** What `ftell` returns at position `pos`: the position when it fits a
      `long`, otherwise -1 (EOVERFLOW). */
  function LongPosition(pos: nat): (p: int)
    ensures -1 <= p <= LongMax
    ensures p >= 0 <==> pos <= LongMax
    ensures p >= 0 ==> p == pos
  {
    if pos <= LongMax then pos else -1
  }

  /** An open `FILE*` of the host file layer. */
  class FileHandle {
    const name: string
    const size: nat
    var pos: nat
    var closed: bool

    constructor (name: string, size: nat)
      ensures this.name == name && this.size == size && pos == 0 && !closed
    {
      this.name := name;
      this.size := size;
      pos := 0;
      closed := false;
    }

    /** fseek(f, 0, SEEK_END) */
    method SeekEnd()
      modifies this
      ensures pos == size && closed == old(closed)
    {
      pos := size;
    }

    /** fseek(f, 0, SEEK_SET) */
    method SeekStart()
      modifies this
      ensures pos == 0 && closed == old(closed)
    {
      pos := 0;
    }

    /** ftell(f) */
    method Tell() returns (p: int)
      ensures p == LongPosition(pos)
    {
      p := if pos <= LongMax then pos else -1;
    }

    /** fclose(f); closing a handle twice is undefined in C. */
    method Close()
      requires !closed
      modifies this
      ensures closed && pos == old(pos)
    {
      closed := true;
    }
  }

  /** The host file layer: which files exist and how large they are. */
  class HostFiles {
    var sizes: map<string, nat>

    constructor (sizes: map<string, nat>)
      ensures this.sizes == sizes
    {
      this.sizes := sizes;
    }

    /** fopen(name, "rb"): a fresh handle at position 0, or NULL when there is
        no such file. */
    method Open(name: string) returns (h: FileHandle?)
      ensures name in sizes ==>
                h != null && fresh(h) && h.name == name && h.size == sizes[name] &&
                h.pos == 0 && !h.closed
      ensures name !in sizes ==> h == null
    {
      if name in sizes {
        h := new FileHandle(name, sizes[name]);
      } else {
        h := null;
      }
    }
  }

  /** The fields of the foreign binary's QiFileInputStream that the hooks use. */
  class QiFileInputStream {
    var file: FileHandle?
    var path: QiString
    var length: int

    constructor (file: FileHandle?, path: QiString, length: int)
      ensures this.file == file && this.path == path && this.length == length
    {
      this.file := file;
      this.path := path;
      this.length := length;
    }

    /** The part common to both open hooks once the full name is built. */
    method OpenFullName(fs: HostFiles, full: string)
      modifies this
      ensures full in fs.sizes ==>
                file != null && fresh(file) && file.name == full && !file.closed &&
                file.pos == 0 && length == LongPosition(fs.sizes[full]) && path == MakeQiString(full)
      ensures full !in fs.sizes ==>
                file == null && length == old(length) && path == old(path)
    {
      file := fs.Open(full);
      if file == null {
        return;
      }
      file.SeekEnd();
      length := file.Tell();
      file.SeekStart();
      path := MakeQiString(full);
    }

    /** QiFileInputStream_open_hook: returns the handle, NULL on failure. */
    method Open(fs: HostFiles, p: string) returns (r: FileHandle?)
      requires |FullName(p)| < NameBufferSize
      modifies this
      ensures r == file
      ensures FullName(p) in fs.sizes ==>
                file != null && fresh(file) && file.name == FullName(p) && !file.closed &&
                file.pos == 0 && length == LongPosition(fs.sizes[FullName(p)]) &&
                path == MakeQiString(FullName(p))
      ensures FullName(p) !in fs.sizes ==>
                file == null && length == old(length) && path == old(path)
    {
      OpenFullName(fs, FullName(p));
      r := file;
    }

    /** QiFileInputStream_openLeanAndMean_hook: the same updates, but the value
        returned through the `FILE*` is 1 on success and NULL (0) on failure. */
    method OpenLeanAndMean(fs: HostFiles, p: string) returns (r: int)
      requires |FullName(p)| < NameBufferSize
      modifies this
      ensures r == if FullName(p) in fs.sizes then 1 else 0
      ensures FullName(p) in fs.sizes ==>
                file != null && fresh(file) && file.name == FullName(p) && !file.closed &&
                file.pos == 0 && length == LongPosition(fs.sizes[FullName(p)]) &&
                path == MakeQiString(FullName(p))
      ensures FullName(p) !in fs.sizes ==>
                file == null && length == old(length) && path == old(path)
    {
      OpenFullName(fs, FullName(p));
      r := if file != null then 1 else 0;
    }

    /** QiFileInputStream_close_hook: closes the handle and leaves the `file`
        field set, so the stream still reports itself open. */
    method Close()
      requires file != null && !file.closed
      modifies file
      ensures file.closed
      ensures IsOpen() == 1
    {
      file.Close();
    }

    /** QiFileInputStream_isOpen_hook */
    function IsOpen(): (r: int)
      reads this
      ensures r == 0 || r == 1
      ensures r == 1 <==> file != null
    {
      if file != null then 1 else 0
    }

    /** QiFileInputStream_getSize_hook: the length stored by the last
        successful open; it reads neither the handle nor the file layer. */
    function GetSize(): (r: int)
      reads this
      ensures r == length
    {
      length
    }
  }

  /** A successful open followed by any change to the file layer: the size
      reported is the one found at open time. */
  method SizeIsCached(fs: HostFiles, s: QiFileInputStream, p: string, newSize: nat)
    returns (size: int)
    requires |FullName(p)| < NameBufferSize && FullName(p) in fs.sizes
    modifies s, fs
    ensures size == LongPosition(old(fs.sizes[FullName(p)]))
  {
    var h := s.Open(fs, p);
    fs.sizes := fs.sizes[FullName(p) := newSize];
    size := s.GetSize();
  }

  /** The native functions so_patch installs. */
  datatype Replacement =
    | DebugLogHook
    | OpenHook
    | OpenLeanAndMeanHook
    | CloseHook
    | IsOpenHook
    | GetSizeHook

  datatype Hook = Hook(symbol: string, replacement: Replacement)

  const DebugLogSymbol := "_ZN5Debug3logEPKci"
  const OpenSymbol := "_ZN17QiFileInputStream4openEPKc"
  const OpenLeanAndMeanSymbol := "_ZN17QiFileInputStream15openLeanAndMeanEPKc"
  const CloseSymbol := "_ZN17QiFileInputStream5closeEv"
  const IsOpenSymbol := "_ZNK17QiFileInputStream6isOpenEv"
  const GetSizeSymbol := "_ZNK17QiFileInputStream7getSizeEv"

  /** The mangled name of the method each replacement stands in for. */
  function SymbolOf(r: Replacement): string
  {
    match r
    case DebugLogHook => DebugLogSymbol
    case OpenHook => OpenSymbol
    case OpenLeanAndMeanHook => OpenLeanAndMeanSymbol
    case CloseHook => CloseSymbol
    case IsOpenHook => IsOpenSymbol
    case GetSizeHook => GetSizeSymbol
  }

  /** The installs of so_patch, in order, as written: the isOpen symbol is
      bound to the close replacement. */
  const HookTable: seq<Hook> := [
    Hook(DebugLogSymbol, DebugLogHook),
    Hook(OpenSymbol, OpenHook),
    Hook(OpenLeanAndMeanSymbol, OpenLeanAndMeanHook),
    Hook(CloseSymbol, CloseHook),
    Hook(IsOpenSymbol, CloseHook),
    Hook(GetSizeSymbol, GetSizeHook)
  ]

  /** The same installs with isOpen bound to its own replacement. */
  const IntendedHookTable: seq<Hook> := [
    Hook(DebugLogSymbol, DebugLogHook),
    Hook(OpenSymbol, OpenHook),
    Hook(OpenLeanAndMeanSymbol, OpenLeanAndMeanHook),
    Hook(CloseSymbol, CloseHook),
    Hook(IsOpenSymbol, IsOpenHook),
    Hook(GetSizeSymbol, GetSizeHook)
  ]

  /** The replacement found for `symbol` in the table, if any. A later
      install at the same address would overwrite an earlier one, so this is
      the replacement a call reaches only when no symbol is hooked twice
      (`DistinctSymbols`), which holds for both tables below. */
  function ReplacementFor(table: seq<Hook>, symbol: string): (r: Option<Replacement>)
    ensures r.Some? ==> Hook(symbol, r.value) in table
    ensures r.None? ==> forall h :: h in table ==> h.symbol != symbol
  {
    if table == [] then None
    else if table[0].symbol == symbol then Some(table[0].replacement)
    else ReplacementFor(table[1..], symbol)
  }

  ghost predicate DistinctSymbols(table: seq<Hook>)
  {
    forall i, j :: 0 <= i < j < |table| ==> table[i].symbol != table[j].symbol
  }

  /** When no symbol is hooked twice, a call through an installed symbol
      reaches exactly the replacement installed for it. */
  lemma {:induction false} ReplacementForEntry(table: seq<Hook>, i: int)
    requires DistinctSymbols(table) && 0 <= i < |table|
    ensures ReplacementFor(table, table[i].symbol) == Some(table[i].replacement)
    decreases i
  {
    if i > 0 {
      assert table[0].symbol != table[i].symbol;
      ReplacementForEntry(table[1..], i - 1);
    }
  }

  /** As written: six distinct symbols are hooked, and a call to isOpen runs
      the close replacement, which is installed twice, while the isOpen
      replacement is never installed. */
  lemma HookTableAsWritten()
    ensures |HookTable| == 6 && DistinctSymbols(HookTable)
    ensures ReplacementFor(HookTable, IsOpenSymbol) == Some(CloseHook)
    ensures ReplacementFor(HookTable, CloseSymbol) == Some(CloseHook)
    ensures forall h :: h in HookTable ==> h.replacement != IsOpenHook
    ensures HookTable[4].symbol != SymbolOf(HookTable[4].replacement)
  {
    ReplacementForEntry(HookTable, 3);
    ReplacementForEntry(HookTable, 4);
  }

  /** Corrected: every symbol is bound to the replacement for its own method,
      so a call through any hooked symbol reaches its namesake. */
  lemma IntendedHookTableMatchesNames()
    ensures |IntendedHookTable| == 6 && DistinctSymbols(IntendedHookTable)
    ensures forall h :: h in IntendedHookTable ==> h.symbol == SymbolOf(h.replacement)
    ensures forall r: Replacement :: ReplacementFor(IntendedHookTable, SymbolOf(r)) == Some(r)
  {
    forall r: Replacement
      ensures ReplacementFor(IntendedHookTable, SymbolOf(r)) == Some(r)
    {
      var i := match r
        case DebugLogHook => 0
        case OpenHook => 1
        case OpenLeanAndMeanHook => 2
        case CloseHook => 3
        case IsOpenHook => 4
        case GetSizeHook => 5;
      ReplacementForEntry(IntendedHookTable, i);
    }
  }
}
