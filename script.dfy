/**
 The whole run of FancyZoneGen/Program.cs (lines 5-115) over a model of the two files it
 touches: read custom-layouts.json, collect and choose a canvas layout, read its reference
 size, back the original bytes up under a name derived from their hash unless that backup
 exists, replace the layout's `info.zones` with the generated grid and write the document back.

 Parsing, serialising, hashing and the floating-point split pixels are parameters.
 */
module Script {
  import opened Wrappers
  import opened ZoneGrid
  import opened Layouts

  type Bytes = seq<bv8>

  /**
   The parsed configuration file: Unusable when parsing throws or gives no object root
   (JSON null, for one); otherwise the `custom-layouts` property, None when it is absent or
   not an array.
   */
  datatype Document = Unusable | Root(customLayouts: Option<seq<Entry>>)

  /** How a run ends: an exit code, an unhandled exception, or still prompting when the answers ran out. */
  datatype Status = Exited(code: int) | Crashed | Prompting

  /** The files the program reads and writes. */
  class Files {
    /** The bytes of custom-layouts.json; None when the file does not exist. */
    var config: Option<Bytes>
    /** The backup files beside it, by the hexadecimal hash that is part of their name. */
    var backups: map<string, Bytes>

    constructor (config: Option<Bytes>, backups: map<string, Bytes>)
      ensures this.config == config && this.backups == backups
    {
      this.config := config;
      this.backups := backups;
    }
  }

  /**
   Lines 23-26: the `custom-layouts` array and the positions of its canvas entries, or None
   when the root, the array or some element's `type` cannot be read.
   */
  function Candidates(doc: Document): (r: Option<(seq<Entry>, seq<nat>)>)
    ensures r.Some? <==> doc.Root? && doc.customLayouts.Some? && CanvasPositions(doc.customLayouts.value).Some?
    ensures r.Some? ==> r.value.0 == doc.customLayouts.value
    ensures r.Some? ==> r.value.1 == CanvasPositions(doc.customLayouts.value).value
    ensures r.Some? ==> forall k :: 0 <= k < |r.value.1| ==> r.value.1[k] < |r.value.0| && IsCanvas(r.value.0[r.value.1[k]])
  {
    if doc.Unusable? || doc.customLayouts.None? then None
    else
      var entries := doc.customLayouts.value;
      match CanvasPositions(entries)
      case None => None
      case Some(ps) => Some((entries, ps))
  }

  /** Line 47 reads the `name` of every candidate before the first answer is read. */
  predicate AllNamed(entries: seq<Entry>, layouts: seq<nat>)
  {
    forall k :: 0 <= k < |layouts| && layouts[k] < |entries| ==>
      entries[layouts[k]].Layout? && entries[layouts[k]].name.Some?
  }

  /**
   Lines 57-60: the reference width and height of the chosen layout, or None when its `info`,
   `name`, `ref-width` or `ref-height` cannot be read.
   */
  function Dimensions(e: Entry): (r: Option<(int, int)>)
    ensures r.Some? <==> e.Layout? && e.info.Some? && e.name.Some?
                         && e.info.value.refWidth.Some? && e.info.value.refHeight.Some?
    ensures r.Some? ==> r.value == (e.info.value.refWidth.value, e.info.value.refHeight.value)
  {
    if !e.Layout? || e.info.None? || e.name.None? then None
    else
      var info := e.info.value;
      if info.refWidth.None? || info.refHeight.None? then None
      else Some((info.refWidth.value, info.refHeight.value))
  }

  /**
   Line 105: the array with entry `p`'s `info.zones` replaced; its type, name, reference size
   and every other entry are left as they were.
   */
  function WithZones(entries: seq<Entry>, p: nat, zones: seq<Zone>): (r: seq<Entry>)
    requires p < |entries| && entries[p].Layout? && entries[p].info.Some?
    ensures |r| == |entries|
    ensures forall i :: 0 <= i < |entries| && i != p ==> r[i] == entries[i]
    ensures r[p].Layout? && r[p].kind == entries[p].kind && r[p].name == entries[p].name
    ensures r[p].info.Some? && r[p].info.value.zones == Some(zones)
    ensures r[p].info.value.refWidth == entries[p].info.value.refWidth
    ensures r[p].info.value.refHeight == entries[p].info.value.refHeight
  {
    var e := entries[p];
    entries[p := e.(info := Some(e.info.value.(zones := Some(zones))))]
  }

  /**
   Lines 64-73: the backups after copying `bytes` to the backup named by `key` unless one
   exists: an existing backup is never overwritten, and after the step one exists for `key`.
   */
  function Backup(backups: map<string, Bytes>, key: string, bytes: Bytes): (r: map<string, Bytes>)
    ensures r.Keys == backups.Keys + {key}
    ensures forall k :: k in backups ==> r[k] == backups[k]
    ensures key !in backups ==> r[key] == bytes
  {
    if key in backups then backups else backups[key := bytes]
  }

  /** A second backup step for the same content changes nothing. */
  lemma BackupIdempotent(backups: map<string, Bytes>, key: string, bytes: Bytes, later: Bytes)
    ensures Backup(Backup(backups, key, bytes), key, later) == Backup(backups, key, bytes)
  {
  }

  /**
   One run of the program. `answers` are the parsed lines read at the prompt (None for a line
   that is not an integer); `consumed` is how many were read.
   */
  method Run(fs: Files, answers: seq<Option<int>>,
             parse: Bytes -> Document, serialize: Document -> Bytes,
             hashHex: Bytes -> string, splitPixels: int -> Splits)
    returns (status: Status, consumed: nat)
    modifies fs
    ensures old(fs.config).None? ==> status == Exited(1) && consumed == 0
    ensures status != Exited(0) ==> fs.config == old(fs.config) && fs.backups == old(fs.backups)
    ensures old(fs.config).Some? ==>
      var bytes := old(fs.config).value;
      match Candidates(parse(bytes))
      case None => status == Crashed && consumed == 0
      case Some((entries, layouts)) =>
        if layouts == [] then status == Exited(2) && consumed == 0
        else if |layouts| > 1 && !AllNamed(entries, layouts) then status == Crashed && consumed == 0
        else match Choice(|layouts|, answers)
          case None => status == Prompting && consumed == |answers|
          case Some((k, n)) =>
            var p := layouts[k];
            consumed == n &&
            match Dimensions(entries[p])
            case None => status == Crashed
            case Some((w, h)) =>
              && status == Exited(0)
              && fs.backups == Backup(old(fs.backups), hashHex(bytes), bytes)
              && fs.config == Some(serialize(Root(Some(WithZones(entries, p, Zones(w, h, splitPixels(w)))))))
  {
    if fs.config.None? {
      return Exited(1), 0;
    }
    var bytes := fs.config.value;
    var doc := parse(bytes);
    var hash := hashHex(bytes);

    if doc.Unusable? || doc.customLayouts.None? {
      return Crashed, 0;
    }
    var entries := doc.customLayouts.value;
    var found := CanvasPositions(entries);
    if found.None? {
      return Crashed, 0;
    }
    var layouts := found.value;
    if |layouts| == 0 {
      return Exited(2), 0;
    }

    if |layouts| > 1 && !AllNamed(entries, layouts) {
      return Crashed, 0;
    }
    var chosen;
    chosen, consumed := SelectLayout(layouts, answers);
    if chosen.None? {
      return Prompting, consumed;
    }
    var p := chosen.value;
    var target := entries[p];
    if target.info.None? || target.name.None? {
      return Crashed, consumed;
    }
    var info := target.info.value;
    if info.refWidth.None? || info.refHeight.None? {
      return Crashed, consumed;
    }
    var refWidth, refHeight := info.refWidth.value, info.refHeight.value;

    if hash !in fs.backups {
      fs.backups := fs.backups[hash := bytes];
    }

    var zones := Zones(refWidth, refHeight, splitPixels(refWidth));
    entries := entries[p := target.(info := Some(info.(zones := Some(zones))))];
    fs.config := Some(serialize(Root(Some(entries))));
    return Exited(0), consumed;
  }
}
