/** The drive table (core/src/drive.c): what an option string asks for, which slot it gets,
    and the legacy shorthands. */
module DriveTable {
  import opened Runs
  import opened Arithmetic
  import opened DriveOptions

  datatype Iface = NoIface | Ide | Scsi | Floppy | Pflash | Mtd | Sd | Virtio
  datatype Media = Disk | Cdrom

  function IfName(i: Iface): Text {
    match i
    case NoIface => "none" case Ide => "ide" case Scsi => "scsi" case Floppy => "floppy"
    case Pflash => "pflash" case Mtd => "mtd" case Sd => "sd" case Virtio => "virtio"
  }

  /** Units per bus; 0 means one bus with any number of units. */
  function MaxDevs(i: Iface): nat {
    match i
    case Ide => 2 case Scsi => 7 case _ => 0
  }

  function IfNamed(v: Text): Option<Iface> {
    if v == "none" then Some(NoIface) else if v == "ide" then Some(Ide) else if v == "scsi" then Some(Scsi)
    else if v == "floppy" then Some(Floppy) else if v == "pflash" then Some(Pflash) else if v == "mtd" then Some(Mtd)
    else if v == "sd" then Some(Sd) else if v == "virtio" then Some(Virtio) else None
  }

  lemma IfNameRoundTrip(i: Iface)
    ensures IfNamed(IfName(i)) == Some(i)
  {
  }

  // ------------------------------------------------------------ numbers, switches

  predicate Digit(c: char) { '0' <= c <= '9' }
  predicate Space(c: char) { c == ' ' || '\t' <= c <= '\r' }

  /** A non-empty run of digits up to the end, as strtol reads it. */
  function Digits(v: Text, acc: int): Option<int> {
    if v == [] then Some(acc) else if Digit(v[0]) then Digits(v[1..], acc * 10 + (v[0] - '0') as int) else None
  }

  function Unsigned(v: Text): Option<int> { if v == [] then None else Digits(v, 0) }

  function Strtol(v: Text): Option<int> {
    if v == [] then None
    else if Space(v[0]) then Strtol(v[1..])
    else if v[0] == '+' then Unsigned(v[1..])
    else if v[0] == '-' then (match Unsigned(v[1..]) case Some(n) => Some(-n) case None => None)
    else Unsigned(v)
  }

  /** A number an option may hold: 0 to 1000. */
  function ParseInt(v: Text): Option<int> {
    match Strtol(v)
    case Some(n) => if 0 <= n <= 1000 then Some(n) else None
    case None => None
  }

  /** A number in decimal, as %d prints it. */
  function Dec(n: nat): Text
    decreases n
  {
    if n < 10 then [Decimal(n)] else Dec(n / 10) + [Decimal(n % 10)]
  }

  function Decimal(n: int): (c: char)
    requires 0 <= n < 10
    ensures Digit(c) && (c - '0') as int == n
  {
    '0' + n as char
  }

  lemma {:induction false} DigitsAppend(v: Text, d: char, acc: int)
    requires Digit(d)
    ensures Digits(v + [d], acc) ==
      match Digits(v, acc) case Some(n) => Some(n * 10 + (d - '0') as int) case None => None
    decreases |v|
  {
    if v != [] {
      assert (v + [d])[1..] == v[1..] + [d];
      if Digit(v[0]) { DigitsAppend(v[1..], d, acc * 10 + (v[0] - '0') as int); }
    } else {
      assert v + [d] == [d];
      assert Digits([], acc * 10 + (d - '0') as int) == Some(acc * 10 + (d - '0') as int);
    }
  }

  lemma {:induction false} DecDigits(n: nat)
    ensures Digits(Dec(n), 0) == Some(n) && Dec(n) != [] && forall c :: c in Dec(n) ==> Digit(c)
    decreases n
  {
    if n < 10 {
      assert Digits(Dec(n)[1..], n) == Some(n);
    } else {
      DecDigits(n / 10);
      DigitsAppend(Dec(n / 10), Decimal(n % 10), 0);
    }
  }

  /** A printed number is read back. */
  lemma DecRoundTrip(n: nat)
    ensures ParseInt(Dec(n)) == if n <= 1000 then Some(n) else None
  {
    DecDigits(n);
    assert Dec(n)[0] in Dec(n);
  }

  function ParseBool(v: Option<Text>): Option<bool> {
    if v.None? || v.value in ["on", "true", "yes"] then Some(true)
    else if v.value in ["off", "false", "no"] then Some(false)
    else None
  }

  // ------------------------------------------------------------------- settings

  datatype Settings = Settings(iface: Iface, media: Media, readonly: bool, readonlySet: bool, snapshot: bool,
                               bus: int, unit: int, index: int, haveFile: bool, file: Text, id: Text)

  /** What a text of n bytes of buffer keeps of v. */
  function Trunc(v: Text, n: nat): Text
    requires n > 0
  {
    if |v| < n then v else v[..n - 1]
  }

  const IGNORED: seq<Text> := ["cache", "aio", "discard", "detect-zeroes", "werror", "rerror", "copy-on-read",
                               "serial", "addr", "auto-read-only", "throttling.iops-total", "throttling.bps-total"]

  function ValueOr(v: Option<Text>): Text { if v.Some? then v.value else [] }

  /** One option; None for an error. */
  function ApplyOpt(ownImages: bool, s: Settings, o: Opt): Option<Settings> {
    if o.key == [] then Some(s)
    else if o.key == "file" then Some(s.(file := Trunc(ValueOr(o.val), 512), haveFile := o.val.Some? && o.val.value != []))
    else if o.key == "if" then
      (match IfNamed(ValueOr(o.val)) case Some(i) => Some(s.(iface := i)) case None => None)
    else if o.key == "bus" then
      (match ParseInt(ValueOr(o.val)) case Some(n) => Some(s.(bus := n)) case None => None)
    else if o.key == "unit" then
      (match ParseInt(ValueOr(o.val)) case Some(n) => Some(s.(unit := n)) case None => None)
    else if o.key == "index" then
      (match ParseInt(ValueOr(o.val)) case Some(n) => Some(s.(index := n)) case None => None)
    else if o.key == "media" then
      if o.val == Some("disk") then Some(s.(media := Disk))
      else if o.val == Some("cdrom") then Some(s.(media := Cdrom))
      else None
    else if o.key == "readonly" then
      (match ParseBool(o.val) case Some(b) => Some(s.(readonly := b, readonlySet := true)) case None => None)
    else if o.key == "snapshot" then
      (match ParseBool(o.val) case Some(b) => Some(s.(snapshot := b)) case None => None)
    else if o.key == "format" then (if ownImages || o.val == Some("raw") then Some(s) else None)
    else if o.key == "id" then Some(s.(id := Trunc(ValueOr(o.val), 64)))
    else if o.key in IGNORED then Some(s)
    else None
  }

  function ApplyAll(ownImages: bool, s: Settings, os: seq<Opt>): Option<Settings>
    decreases |os|
  {
    if os == [] then Some(s)
    else
      match ApplyOpt(ownImages, s, os[0])
      case None => None
      case Some(s') => ApplyAll(ownImages, s', os[1..])
  }

  function Defaults(iface: Iface, snapshot: bool): Settings {
    Settings(iface, Disk, false, false, snapshot, -1, -1, -1, false, [], [])
  }

  predicate Removable(s: Settings) { s.media == Cdrom || s.iface == Floppy }

  /** A CD-ROM can't be a floppy or writable; only removable drives can be empty. */
  predicate Coherent(s: Settings) {
    && (s.media == Cdrom ==> s.iface != Floppy && !(s.readonlySet && !s.readonly))
    && (s.haveFile || Removable(s))
  }

  // ---------------------------------------------------------------------- slots

  datatype Drive = Drive(iface: Iface, bus: int, unit: int, index: int, media: Media, readonly: bool,
                         snapshot: bool, name: Text, file: Text)

  predicate At(d: Drive, iface: Iface, bus: int, unit: int) { d.iface == iface && d.bus == bus && d.unit == unit }

  ghost predicate Taken(ds: seq<Drive>, iface: Iface, bus: int, unit: int) {
    exists i :: 0 <= i < |ds| && At(ds[i], iface, bus, unit)
  }

  method Find(ds: seq<Drive>, iface: Iface, bus: int, unit: int) returns (found: bool)
    ensures found <==> Taken(ds, iface, bus, unit)
  {
    for i := 0 to |ds|
      invariant forall j :: 0 <= j < i ==> !At(ds[j], iface, bus, unit)
    {
      if ds[i].iface == iface && ds[i].bus == bus && ds[i].unit == unit { return true; }
    }
    return false;
  }

  /** Slots in search order: units, then buses where those are bounded. */
  function SlotIndex(max: nat, bus: int, unit: int): int { if max > 0 then bus * max + unit else unit }

  /** The k-th slot from bus b on. */
  function SlotBus(max: nat, b: int, k: int): int { if max > 0 then b + k / max else b }
  function SlotUnit(max: nat, k: int): int { if max > 0 then k % max else k }

  /** No two drives share a slot, bounded units stay below their maximum, indexes say where. */
  ghost predicate Valid(ds: seq<Drive>) {
    && |ds| <= 32
    && (forall i :: 0 <= i < |ds| ==>
          var d := ds[i]; var max := MaxDevs(d.iface);
          && d.bus >= 0 && d.unit >= 0 && (max > 0 ==> d.unit < max) && d.index == SlotIndex(max, d.bus, d.unit))
    && (forall i, j :: 0 <= i < j < |ds| ==> !At(ds[j], ds[i].iface, ds[i].bus, ds[i].unit))
  }

  /** The first free slot at or after unit 0 of bus b is its k-th. */
  ghost predicate FirstFree(ds: seq<Drive>, iface: Iface, b: int, k: nat) {
    var max := MaxDevs(iface);
    && !Taken(ds, iface, SlotBus(max, b, k), SlotUnit(max, k))
    && forall j :: 0 <= j < k ==> Taken(ds, iface, SlotBus(max, b, j), SlotUnit(max, j))
  }

  /** The slot numbers already ruled out name different drives, so there are at most |ds| of them. */
  ghost predicate Witnesses(ds: seq<Drive>, iface: Iface, b: int, w: seq<int>) {
    forall j :: 0 <= j < |w| ==>
      0 <= w[j] < |ds| && At(ds[w[j]], iface, SlotBus(MaxDevs(iface), b, j), SlotUnit(MaxDevs(iface), j))
  }

  lemma SlotsDiffer(max: nat, b: int, i: nat, j: nat)
    ensures SlotBus(max, b, i) == SlotBus(max, b, j) && SlotUnit(max, i) == SlotUnit(max, j) ==> i == j
  {
    if max > 0 {
      assert i == max * (i / max) + i % max;
      assert j == max * (j / max) + j % max;
    }
  }

  lemma WitnessCount(ds: seq<Drive>, iface: Iface, b: int, w: seq<int>)
    requires Witnesses(ds, iface, b, w)
    ensures |w| <= |ds|
  {
    forall i, j | 0 <= i < j < |w| ensures w[i] != w[j] {
      SlotsDiffer(MaxDevs(iface), b, i, j);
    }
    DistinctBounded(w, |ds|);
  }

  lemma NextSlot(max: nat, b: int, k: nat)
    ensures max > 0 && SlotUnit(max, k) + 1 >= max ==>
      SlotUnit(max, k + 1) == SlotUnit(max, k) + 1 - max && SlotBus(max, b, k + 1) == SlotBus(max, b, k) + 1
    ensures !(max > 0 && SlotUnit(max, k) + 1 >= max) ==>
      SlotUnit(max, k + 1) == SlotUnit(max, k) + 1 && SlotBus(max, b, k + 1) == SlotBus(max, b, k)
  {
    if max > 0 {
      var q, r := k / max, k % max;
      assert k == q * max + r;
      if r + 1 >= max {
        assert (q + 1) * max == q * max + max;
        DivUnique(k + 1, max, q + 1, 0);
      } else {
        DivUnique(k + 1, max, q, r + 1);
      }
    }
  }

  /** The automatic search: ends, and takes the first free slot from bus b on. */
  method Search(ds: seq<Drive>, iface: Iface, b: int) returns (bus: int, unit: int, ghost k: nat)
    ensures FirstFree(ds, iface, b, k) && bus == SlotBus(MaxDevs(iface), b, k) && unit == SlotUnit(MaxDevs(iface), k)
    ensures k <= |ds| && unit >= 0 && bus >= b
  {
    hide At, MaxDevs, SlotBus, SlotUnit;
    bus, unit, k := b, 0, 0;
    var max := MaxDevs(iface);
    ghost var w: seq<int> := [];
    FirstSlot(max, b);
    var taken := Find(ds, iface, bus, unit);
    while taken
      invariant taken == Taken(ds, iface, bus, unit)
      invariant bus == SlotBus(max, b, k) && unit == SlotUnit(max, k)
      invariant |w| == k <= |ds| && Witnesses(ds, iface, b, w)
      decreases |ds| - k
    {
      ghost var i :| 0 <= i < |ds| && At(ds[i], iface, bus, unit);
      w := w + [i];
      WitnessCount(ds, iface, b, w);
      NextSlot(max, b, k);
      unit, k := unit + 1, k + 1;
      if max > 0 && unit >= max { unit, bus := unit - max, bus + 1; }
      taken := Find(ds, iface, bus, unit);
    }
    SlotSigns(max, b, k);
    assert forall j :: 0 <= j < k ==> At(ds[w[j]], iface, SlotBus(max, b, j), SlotUnit(max, j));
  }

  lemma FirstSlot(max: nat, b: int)
    ensures SlotBus(max, b, 0) == b && SlotUnit(max, 0) == 0
  {
  }

  lemma SlotSigns(max: nat, b: int, k: nat)
    ensures SlotUnit(max, k) >= 0 && SlotBus(max, b, k) >= b && (max > 0 ==> SlotUnit(max, k) < max)
  {
  }

  // ----------------------------------------------------------------- adding drives

  /** What an option string asks for; None when it is too long or has an error. */
  function Asked(ownImages: bool, d: Settings, text: Text): Option<Settings> {
    if |text| >= 1024 then None else ApplyAll(ownImages, d, Options(text))
  }

  function NonNegative(n: int): int { if n < 0 then 0 else n }

  function DefaultName(s: Settings, bus: nat, unit: nat): Text {
    if MaxDevs(s.iface) > 0
    then IfName(s.iface) + Dec(bus) + "-" + (if s.media == Cdrom then "cd" else "hd") + Dec(unit)
    else IfName(s.iface) + Dec(unit)
  }

  /** The slot a request names, or the first free one. */
  ghost predicate SlotAsked(ds: seq<Drive>, s: Settings, bus: int, unit: int) {
    var max := MaxDevs(s.iface);
    if s.index >= 0 then
      bus == (if max > 0 then s.index / max else 0) && unit == (if max > 0 then s.index % max else s.index)
    else if s.unit >= 0 then bus == NonNegative(s.bus) && unit == s.unit
    else exists k: nat :: FirstFree(ds, s.iface, NonNegative(s.bus), k)
           && bus == SlotBus(max, NonNegative(s.bus), k) && unit == SlotUnit(max, k)
  }

  /** A drive can be added: coherent settings, a slot that exists and is free, room, and a new id. */
  ghost predicate Placeable(ds: seq<Drive>, s: Settings) {
    && Coherent(s) && |ds| < 32
    && (s.index >= 0 ==> s.bus < 0 && s.unit < 0)
    && (forall bus, unit :: SlotAsked(ds, s, bus, unit) ==>
          (MaxDevs(s.iface) > 0 ==> unit < MaxDevs(s.iface)) && !Taken(ds, s.iface, bus, unit))
    && (s.id != [] ==> forall i :: 0 <= i < |ds| ==> ds[i].name != s.id)
  }

  ghost predicate Placed(ds: seq<Drive>, s: Settings, d: Drive) {
    && d.iface == s.iface && d.media == s.media && d.readonly == (s.readonly || s.media == Cdrom)
    && d.snapshot == s.snapshot && d.file == (if s.haveFile then s.file else [])
    && d.bus >= 0 && d.unit >= 0
    && SlotAsked(ds, s, d.bus, d.unit) && !Taken(ds, d.iface, d.bus, d.unit)
    && d.index == SlotIndex(MaxDevs(d.iface), d.bus, d.unit)
    && d.name == (if s.id != [] then s.id else DefaultName(s, d.bus, d.unit))
  }

  /** An index is resolved to a bus and unit, and recovered from them unchanged. */
  lemma IndexRecovered(ds: seq<Drive>, s: Settings, d: Drive)
    requires Placed(ds, s, d) && s.index >= 0
    ensures d.index == s.index && (MaxDevs(s.iface) > 0 ==> 0 <= d.unit < MaxDevs(s.iface))
  {
    hide MaxDevs, DefaultName;
  }

  /** There is exactly one slot a request can get. */
  lemma SlotUnique(ds: seq<Drive>, s: Settings, b1: int, u1: int, b2: int, u2: int)
    requires SlotAsked(ds, s, b1, u1) && SlotAsked(ds, s, b2, u2)
    ensures b1 == b2 && u1 == u2
  {
    hide Taken, MaxDevs, SlotBus, SlotUnit;
    if s.index < 0 && s.unit < 0 {
      var max, b := MaxDevs(s.iface), NonNegative(s.bus);
      var k: nat :| FirstFree(ds, s.iface, b, k) && b1 == SlotBus(max, b, k) && u1 == SlotUnit(max, k);
      var j: nat :| FirstFree(ds, s.iface, b, j) && b2 == SlotBus(max, b, j) && u2 == SlotUnit(max, j);
      assert j == k;
    }
  }

  /** A placed drive keeps the table valid. */
  lemma PlacedValid(ds: seq<Drive>, s: Settings, d: Drive)
    requires Valid(ds) && |ds| < 32 && Placed(ds, s, d)
    requires MaxDevs(d.iface) > 0 ==> d.unit < MaxDevs(d.iface)
    ensures Valid(ds + [d])
  {
    hide MaxDevs, SlotAsked, DefaultName, SlotIndex;
    forall i, j | 0 <= i < j < |ds| + 1 ensures !At((ds + [d])[j], (ds + [d])[i].iface, (ds + [d])[i].bus, (ds + [d])[i].unit) {
      if j == |ds| { assert !At(ds[i], d.iface, d.bus, d.unit); }
    }
  }

  class Table {
    var drives: seq<Drive>
    var defaultIf: Iface
    var snapshotAll: bool
    var ownImages: bool

    ghost function Request(text: Text): Option<Settings>
      reads this
    {
      Asked(ownImages, Defaults(defaultIf, snapshotAll), text)
    }

    /** Reads all options into settings. */
    method ReadOptions(text: Text) returns (s: Option<Settings>)
      requires NUL !in text
      ensures s == Request(text)
    {
      hide ApplyOpt, HasText;
      if |text| >= 1024 { return None; }
      var buf := new char[1024](i => if 0 <= i < |text| then text[i] else NUL);
      BufferHolds(buf[..], text);
      var os := SplitAll(buf, text);
      s := Some(Defaults(defaultIf, snapshotAll));
      for i := 0 to |os|
        invariant s.Some? && ApplyAll(ownImages, s.value, os[i..]) == Request(text)
      {
        s := ApplyOpt(ownImages, s.value, os[i]);
        assert os[i..][1..] == os[i + 1..];
        if s.None? { return; }
      }
    }

    /** Resolves index, bus and unit; ok says the slot exists and is free. */
    method Resolve(s: Settings) returns (ok: bool, bus: int, unit: int)
      ensures bus >= 0 && unit >= 0 && SlotAsked(drives, s, bus, unit)
      ensures ok <==> (MaxDevs(s.iface) > 0 ==> unit < MaxDevs(s.iface)) && !Taken(drives, s.iface, bus, unit)
    {
      hide Taken, MaxDevs, FirstFree, SlotBus, SlotUnit;
      var max := MaxDevs(s.iface);
      bus, unit := s.bus, s.unit;
      if s.index >= 0 {
        bus := if max > 0 then s.index / max else 0;
        unit := if max > 0 then s.index % max else s.index;
      }
      if bus < 0 { bus := 0; }
      if unit < 0 {
        ghost var k;
        bus, unit, k := Search(drives, s.iface, bus);
        assert SlotAsked(drives, s, bus, unit);
      }
      var found := Find(drives, s.iface, bus, unit);
      ok := !(max > 0 && unit >= max) && !found;
    }

    method IdTaken(id: Text) returns (taken: bool)
      ensures taken <==> exists i :: 0 <= i < |drives| && drives[i].name == id
    {
      for i := 0 to |drives|
        invariant forall j :: 0 <= j < i ==> drives[j].name != id
      {
        if drives[i].name == id { return true; }
      }
      return false;
    }

    /** Puts a drive with these settings into the table. */
    method Place(s: Settings, opens: bool) returns (ok: bool)
      requires Valid(drives)
      modifies this`drives
      ensures ok <==> Placeable(old(drives), s) && (opens || ownImages || !s.haveFile)
      ensures !ok ==> drives == old(drives)
      ensures ok ==> |drives| == |old(drives)| + 1 && drives[..|old(drives)|] == old(drives)
      ensures ok ==> Placed(old(drives), s, drives[|old(drives)|])
      ensures Valid(drives)
    {
      hide Valid, SlotAsked, Taken, MaxDevs, DefaultName;
      if s.media == Cdrom && (s.iface == Floppy || (s.readonlySet && !s.readonly)) { return false; }
      var readonly := s.readonly || s.media == Cdrom;
      if !s.haveFile && !Removable(s) { return false; }
      if s.index >= 0 && (s.bus >= 0 || s.unit >= 0) { return false; }
      var free, bus, unit := Resolve(s);
      forall b, u | SlotAsked(drives, s, b, u) ensures b == bus && u == unit { SlotUnique(drives, s, b, u, bus, unit); }
      if !free { return false; }
      if |drives| >= 32 { return false; }
      var name := s.id;
      if s.id != [] {
        var dup := IdTaken(s.id);
        if dup { return false; }
      } else {
        name := DefaultName(s, bus, unit);
      }
      if s.haveFile && !ownImages && !opens { return false; }
      var d := Drive(s.iface, bus, unit, SlotIndex(MaxDevs(s.iface), bus, unit), s.media, readonly, s.snapshot,
                     name, if s.haveFile then s.file else []);
      PlacedValid(drives, s, d);
      drives := drives + [d];
      ok := true;
    }

    /** -drive; opens says whether the image file could be opened. */
    method Add(text: Text, opens: bool) returns (ok: bool)
      requires NUL !in text && Valid(drives)
      modifies this`drives
      ensures ok <==> Request(text).Some? && Placeable(old(drives), Request(text).value)
                      && (opens || ownImages || !Request(text).value.haveFile)
      ensures !ok ==> drives == old(drives)
      ensures ok ==> |drives| == |old(drives)| + 1 && drives[..|old(drives)|] == old(drives)
                     && Placed(old(drives), Request(text).value, drives[|old(drives)|])
      ensures Valid(drives)
    {
      hide Valid, Placeable, Placed, Asked;
      var s := ReadOptions(text);
      if s.None? { return false; }
      ok := Place(s.value, opens);
    }

    /** A shorthand: delivers its file name, or nothing at all. */
    method AddLegacy(iface: Iface, index: int, media: Media, file: Text, opens: bool) returns (ok: bool)
      requires NUL !in file && Valid(drives)
      modifies this`drives
      ensures var s := LegacySettings(Defaults(defaultIf, snapshotAll), iface, index, media, file);
        && (ok <==> LegacyFits(iface, index, media, file) && 0 <= index <= 1000 && Placeable(old(drives), s)
                    && (opens || ownImages || file == []))
        && (ok ==> |drives| == |old(drives)| + 1 && drives[..|old(drives)|] == old(drives)
                   && Placed(old(drives), s, drives[|old(drives)|]))
      ensures !ok ==> drives == old(drives)
      ensures Valid(drives)
    {
      hide Valid, Placeable, Placed, Asked, LegacyTail, LegacyFits;
      var esc := EscapeFile(file);
      var opts := Trunc("file=" + esc + LegacyTail(iface, index, media), 1200);
      LegacyNul(esc, iface, index, media);
      LegacyAsked(ownImages, Defaults(defaultIf, snapshotAll), iface, index, media, file, esc);
      ok := Add(opts, opens);
    }
  }

  lemma BufferHolds(b: seq<char>, t: Text)
    requires |t| < |b| && NUL !in t && forall i :: 0 <= i < |b| ==> b[i] == if i < |t| then t[i] else NUL
    ensures HasText(b, 0, t)
  {
    assert b[0..|t|] == t;
  }

  // ---------------------------------------------------------- legacy shorthands

  function MediaName(m: Media): Text { if m == Cdrom then "cdrom" else "disk" }

  function DecInt(n: int): Text { if n < 0 then ['-'] + Dec(-n) else Dec(n) }

  /** The options a shorthand stands for. */
  function LegacyOpts(iface: Iface, index: int, media: Media, file: Text): seq<Opt> {
    [Opt("file", Some(file)), Opt("if", Some(IfName(iface))), Opt("index", Some(DecInt(index))), Opt("media", Some(MediaName(media)))]
  }

  function LegacyTail(iface: Iface, index: int, media: Media): Text {
    ",if=" + IfName(iface) + ",index=" + DecInt(index) + ",media=" + MediaName(media)
  }

  /** Doubles commas into a buffer of 1100 bytes, stopping when it is nearly full. */
  method EscapeFile(file: Text) returns (esc: Text)
    ensures esc == Escape(file) || (|esc| >= 1098 && |Escape(file)| >= 1098)
    ensures NUL !in file ==> NUL !in esc
  {
    esc := [];
    var i := 0;
    while i < |file| && |esc| + 2 < 1100
      invariant 0 <= i <= |file| && Escape(file) == esc + Escape(file[i..])
      invariant NUL !in file ==> NUL !in esc
      decreases |file| - i
    {
      EscapeUnfolds(file[i..]);
      assert file[i..][1..] == file[i + 1..];
      assert file[i] in file;
      if file[i] == ',' { esc := esc + [',']; }
      esc := esc + [file[i]];
      i := i + 1;
    }
    if i == |file| { assert file[i..] == [] && esc + [] == esc; }
  }

  lemma {:induction false} EscapePlain(v: Text)
    requires ',' !in v
    ensures Escape(v) == v
    decreases |v|
  {
    if v != [] {
      assert v[0] in v && forall c :: c in v[1..] ==> c in v;
      EscapePlain(v[1..]);
      assert v == [v[0]] + v[1..];
    }
  }

  lemma LegacyPlain(iface: Iface, index: int, media: Media)
    ensures ',' !in IfName(iface) && ',' !in DecInt(index) && ',' !in MediaName(media)
    ensures NUL !in IfName(iface) && NUL !in DecInt(index) && NUL !in MediaName(media)
  {
    if index >= 0 { DecDigits(index); } else { DecDigits(-index); }
  }

  /** The shorthand builds exactly the option string of its options. */
  lemma LegacyPrints(iface: Iface, index: int, media: Media, file: Text)
    ensures Print(LegacyOpts(iface, index, media, file)) == "file=" + Escape(file) + LegacyTail(iface, index, media)
  {
    hide IfName, DecInt, MediaName, Escape;
    LegacyPlain(iface, index, media);
    EscapePlain(IfName(iface));
    EscapePlain(DecInt(index));
    EscapePlain(MediaName(media));
    var os := LegacyOpts(iface, index, media, file);
    PrintMore(os);
    PrintMore(os[1..]);
    PrintMore(os[2..]);
    assert os[1..][1..] == os[2..] && os[2..][1..] == os[3..];
    PrintLast(os[3]);
    assert os[3..] == [os[3]];
    PrintedOpt("file", file);
    PrintedOpt("if", IfName(iface));
    PrintedOpt("index", DecInt(index));
    PrintedOpt("media", MediaName(media));
    LegacyConcat(Escape(file), IfName(iface), DecInt(index), MediaName(media));
  }

  lemma PrintMore(os: seq<Opt>)
    requires |os| > 1
    ensures Print(os) == PrintOpt(os[0]) + [','] + Print(os[1..])
  {
  }

  lemma PrintLast(o: Opt)
    ensures Print([o]) == PrintOpt(o)
  {
  }

  lemma PrintedOpt(k: Text, v: Text)
    ensures PrintOpt(Opt(k, Some(v))) == k + ['='] + Escape(v)
  {
  }

  lemma LegacyConcat(f: Text, i: Text, x: Text, m: Text)
    ensures "file" + ['='] + f + [','] + ("if" + ['='] + i + [','] + ("index" + ['='] + x + [','] + ("media" + ['='] + m)))
         == "file=" + f + (",if=" + i + ",index=" + x + ",media=" + m)
  {
  }

  /** The settings a shorthand asks for. */
  function LegacySettings(d: Settings, iface: Iface, index: int, media: Media, file: Text): Settings {
    d.(file := Trunc(file, 512), haveFile := file != [], iface := iface, index := index, media := media)
  }

  lemma LegacyApplied(own: bool, d: Settings, iface: Iface, index: int, media: Media, file: Text)
    ensures ApplyAll(own, d, LegacyOpts(iface, index, media, file)) ==
      if 0 <= index <= 1000 then Some(LegacySettings(d, iface, index, media, file)) else None
  {
    hide Trunc, Strtol, Dec, IfNamed, IfName, ParseBool;
    IfNameRoundTrip(iface);
    IndexText(index);
    var os := LegacyOpts(iface, index, media, file);
    assert os[1..][1..] == os[2..] && os[2..][1..] == os[3..] && os[3..][1..] == [];
    var d1 := d.(file := Trunc(file, 512), haveFile := file != []);
    var d2 := d1.(iface := iface);
    ApplyNext(own, d, os);
    ApplyNext(own, d1, os[1..]);
    ApplyNext(own, d2, os[2..]);
    if 0 <= index <= 1000 { ApplyNext(own, d2.(index := index), os[3..]); }
  }

  lemma ApplyNext(own: bool, s: Settings, os: seq<Opt>)
    requires os != []
    ensures ApplyAll(own, s, os) ==
      match ApplyOpt(own, s, os[0]) case None => None case Some(s') => ApplyAll(own, s', os[1..])
  {
  }

  lemma IndexText(index: int)
    ensures ParseInt(DecInt(index)) == if 0 <= index <= 1000 then Some(index) else None
  {
    hide Dec, Digits;
    if index >= 0 {
      DecRoundTrip(index);
    } else {
      DecDigits(-index);
      NegativeText(Dec(-index), -index);
    }
  }

  lemma NegativeText(v: Text, n: nat)
    requires n > 0 && v != [] && Digits(v, 0) == Some(n)
    ensures ParseInt(['-'] + v) == None
  {
    assert (['-'] + v)[1..] == v;
  }

  /** The whole option string fits the parser's buffer. */
  predicate LegacyFits(iface: Iface, index: int, media: Media, file: Text) {
    |Print(LegacyOpts(iface, index, media, file))| < 1024
  }

  lemma LegacyNul(esc: Text, iface: Iface, index: int, media: Media)
    requires NUL !in esc
    ensures NUL !in Trunc("file=" + esc + LegacyTail(iface, index, media), 1200)
  {
    hide IfName, DecInt, MediaName;
    LegacyPlain(iface, index, media);
    var t := "file=" + esc + LegacyTail(iface, index, media);
    assert NUL !in t;
    assert forall c :: c in Trunc(t, 1200) ==> c in t;
  }

  /** Cut or not, what the parser gets is the shorthand's options or too long. */
  lemma LegacyAsked(own: bool, d: Settings, iface: Iface, index: int, media: Media, file: Text, esc: Text)
    requires esc == Escape(file) || (|esc| >= 1098 && |Escape(file)| >= 1098)
    ensures Asked(own, d, Trunc("file=" + esc + LegacyTail(iface, index, media), 1200)) ==
      if LegacyFits(iface, index, media, file) && 0 <= index <= 1000
      then Some(LegacySettings(d, iface, index, media, file)) else None
  {
    hide LegacyTail, LegacyOpts, ApplyAll, Options, Print, Escape, LegacySettings;
    LegacyPrints(iface, index, media, file);
    if LegacyFits(iface, index, media, file) {
      LegacyKeys(iface, index, media, file);
      RoundTrip(LegacyOpts(iface, index, media, file));
      LegacyApplied(own, d, iface, index, media, file);
    }
  }

  lemma LegacyKeys(iface: Iface, index: int, media: Media, file: Text)
    ensures forall o :: o in LegacyOpts(iface, index, media, file) ==> PlainKey(o.key)
  {
  }

  /** A shorthand delivers its file name unchanged exactly when it is shorter than 512 characters. */
  lemma FileUnchanged(ds: seq<Drive>, d: Settings, iface: Iface, index: int, media: Media, file: Text, drive: Drive)
    requires Placed(ds, LegacySettings(d, iface, index, media, file), drive)
    ensures drive.file == file <==> |file| < 512
  {
    hide SlotAsked, Taken, DefaultName;
  }

  /** A longer name can fit the option string and be cut without an error. */
  lemma LongNameIsCut(ds: seq<Drive>, d: Settings, drive: Drive)
    ensures var file := seq(600, _ => 'a');
      LegacyFits(Ide, 0, Disk, file)
      && (Placed(ds, LegacySettings(d, Ide, 0, Disk, file), drive) ==> drive.file != file)
  {
    var file := seq(600, _ => 'a');
    EscapePlain(file);
    LegacyPrints(Ide, 0, Disk, file);
    if Placed(ds, LegacySettings(d, Ide, 0, Disk, file), drive) { FileUnchanged(ds, d, Ide, 0, Disk, file, drive); }
  }
}
