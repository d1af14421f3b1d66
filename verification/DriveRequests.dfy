/** What the options of a drive mean (core/src/drive.c): every request can be written as an option string and is read
    back from it, field by field. */
module DriveRequests {
  import opened Runs
  import opened Arithmetic
  import opened DriveOptions
  import opened DriveTable

  /** Settings an option string can ask for. */
  predicate Askable(s: Settings) {
    && -1 <= s.bus <= 1000 && -1 <= s.unit <= 1000 && -1 <= s.index <= 1000
    && (s.readonly ==> s.readonlySet) && |s.file| < 512 && (s.haveFile <==> s.file != []) && |s.id| < 64
  }

  function Switch(b: bool): Text { if b then "on" else "off" }

  function Place(key: Text, n: int): seq<Opt> { if n < 0 then [] else [Opt(key, Some(Dec(n)))] }

  function Named(key: Text, v: Text): seq<Opt> { if v == [] then [] else [Opt(key, Some(v))] }

  function Kind(s: Settings): seq<Opt> {
    [Opt("if", Some(IfName(s.iface))), Opt("media", Some(MediaName(s.media))),
     Opt("snapshot", Some(Switch(s.snapshot)))]
  }

  function Protection(s: Settings): seq<Opt> {
    if s.readonlySet then [Opt("readonly", Some(Switch(s.readonly)))] else []
  }

  /** A request, option by option; what has its default is not mentioned. */
  function RequestOf(s: Settings): seq<Opt> {
    Kind(s) + Protection(s) + Place("bus", s.bus) + Place("unit", s.unit) + Place("index", s.index)
    + Named("file", s.file) + Named("id", s.id)
  }

  lemma {:induction false} ApplyConcat(own: bool, s: Settings, a: seq<Opt>, b: seq<Opt>)
    ensures ApplyAll(own, s, a + b) ==
      match ApplyAll(own, s, a) case None => None case Some(t) => ApplyAll(own, t, b)
    decreases |a|
  {
    hide ApplyOpt;
    if a == [] {
      assert a + b == b;
    } else {
      assert (a + b)[1..] == a[1..] + b;
      match ApplyOpt(own, s, a[0])
      case None =>
      case Some(t) => ApplyConcat(own, t, a[1..], b);
    }
  }

  lemma One(own: bool, s: Settings, o: Opt)
    ensures ApplyAll(own, s, [o]) == ApplyOpt(own, s, o)
  {
    hide ApplyOpt;
    match ApplyOpt(own, s, o)
    case None =>
    case Some(t) => assert ApplyAll(own, t, [o][1..]) == Some(t);
  }

  lemma ApplyKind(own: bool, d: Settings, s: Settings)
    ensures ApplyAll(own, d, Kind(s)) == Some(d.(iface := s.iface, media := s.media, snapshot := s.snapshot))
  {
    hide ParseBool, IfNamed, IfName, Strtol, Trunc, Switch;
    IfNameRoundTrip(s.iface);
    Switches(s.snapshot);
    var os := Kind(s);
    assert os[1..][1..] == os[2..] && os[2..][1..] == [];
    ApplyNext(own, d, os);
    ApplyNext(own, d.(iface := s.iface), os[1..]);
    ApplyNext(own, d.(iface := s.iface, media := s.media), os[2..]);
  }

  lemma Switches(b: bool)
    ensures ParseBool(Some(Switch(b))) == Some(b)
  {
  }

  lemma ApplyProtection(own: bool, d: Settings, s: Settings)
    requires !d.readonly && !d.readonlySet && (s.readonly ==> s.readonlySet)
    ensures ApplyAll(own, d, Protection(s)) == Some(d.(readonly := s.readonly, readonlySet := s.readonlySet))
  {
    hide ParseBool, IfNamed, IfName, Strtol, Trunc, Switch;
    Switches(s.readonly);
    if s.readonlySet { One(own, d, Protection(s)[0]); }
  }

  /** Each of the three numbers goes to its own field. */
  lemma ApplyPlace(own: bool, d: Settings, n: int)
    requires -1 <= n <= 1000
    ensures d.bus == -1 ==> ApplyAll(own, d, Place("bus", n)) == Some(d.(bus := n))
    ensures d.unit == -1 ==> ApplyAll(own, d, Place("unit", n)) == Some(d.(unit := n))
    ensures d.index == -1 ==> ApplyAll(own, d, Place("index", n)) == Some(d.(index := n))
  {
    hide ParseBool, IfNamed, IfName, ParseInt, Trunc, Dec;
    if n >= 0 {
      DecRoundTrip(n);
      One(own, d, Opt("bus", Some(Dec(n))));
      One(own, d, Opt("unit", Some(Dec(n))));
      One(own, d, Opt("index", Some(Dec(n))));
    }
  }

  lemma ApplyNamed(own: bool, d: Settings, v: Text)
    ensures d.file == [] && !d.haveFile && |v| < 512 ==>
      ApplyAll(own, d, Named("file", v)) == Some(d.(file := v, haveFile := v != []))
    ensures d.id == [] && |v| < 64 ==> ApplyAll(own, d, Named("id", v)) == Some(d.(id := v))
  {
    hide ParseBool, IfNamed, IfName, ParseInt;
    if v != [] {
      One(own, d, Opt("file", Some(v)));
      One(own, d, Opt("id", Some(v)));
    }
  }

  /** Whatever the settings, their options set exactly them, from the defaults of any table. */
  lemma OptionsApplied(own: bool, iface: Iface, snapshot: bool, s: Settings)
    requires Askable(s)
    ensures ApplyAll(own, Defaults(iface, snapshot), RequestOf(s)) == Some(s)
  {
    hide Kind, Protection, Place, Named, ApplyOpt, ApplyAll;
    var d := Defaults(iface, snapshot);
    var a := Kind(s);
    var b := a + Protection(s);
    var c := b + Place("bus", s.bus);
    var e := c + Place("unit", s.unit);
    var f := e + Place("index", s.index);
    var g := f + Named("file", s.file);
    var d1 := d.(iface := s.iface, media := s.media, snapshot := s.snapshot);
    var d2 := d1.(readonly := s.readonly, readonlySet := s.readonlySet);
    var d3 := d2.(bus := s.bus);
    var d4 := d3.(unit := s.unit);
    var d5 := d4.(index := s.index);
    ApplyKind(own, d, s);
    ApplyProtection(own, d1, s);
    ApplyPlace(own, d2, s.bus);
    ApplyPlace(own, d3, s.unit);
    ApplyPlace(own, d4, s.index);
    ApplyNamed(own, d5, s.file);
    ApplyNamed(own, d5.(file := s.file, haveFile := s.file != []), s.id);
    ApplyConcat(own, d, a, Protection(s));
    ApplyConcat(own, d, b, Place("bus", s.bus));
    ApplyConcat(own, d, c, Place("unit", s.unit));
    ApplyConcat(own, d, e, Place("index", s.index));
    ApplyConcat(own, d, f, Named("file", s.file));
    ApplyConcat(own, d, g, Named("id", s.id));
  }

  lemma RequestKeys(s: Settings)
    ensures forall o :: o in RequestOf(s) ==> PlainKey(o.key)
  {
    hide IfName, Dec, Switch, MediaName, PlainKey, Place, Named;
    PlainKeys();
    PlaceKey("bus", s.bus);
    PlaceKey("unit", s.unit);
    PlaceKey("index", s.index);
    NamedKey("file", s.file);
    NamedKey("id", s.id);
  }

  lemma PlainKeys()
    ensures PlainKey("if") && PlainKey("media") && PlainKey("snapshot") && PlainKey("readonly") && PlainKey("bus")
    ensures PlainKey("unit") && PlainKey("index") && PlainKey("file") && PlainKey("id")
  {
  }

  lemma PlaceKey(key: Text, n: int)
    ensures forall o :: o in Place(key, n) ==> o.key == key
  {
    hide Dec;
  }

  lemma NamedKey(key: Text, v: Text)
    ensures forall o :: o in Named(key, v) ==> o.key == key
  {
  }

  /** So is the option string they print, if it fits the parser's buffer, and nothing of a longer one. */
  lemma RequestRead(own: bool, iface: Iface, snapshot: bool, s: Settings)
    requires Askable(s)
    ensures Asked(own, Defaults(iface, snapshot), Print(RequestOf(s))) ==
      if |Print(RequestOf(s))| < 1024 then Some(s) else None
  {
    hide Print, RequestOf, ApplyAll, Options, Askable;
    RequestKeys(s);
    RoundTrip(RequestOf(s));
    OptionsApplied(own, iface, snapshot, s);
  }

  /** The words for yes and no; a bare option means yes, and any other word is an error. */
  lemma SwitchWords(v: Text)
    ensures ParseBool(None) == ParseBool(Some("on")) == ParseBool(Some("true")) == ParseBool(Some("yes")) == Some(true)
    ensures ParseBool(Some("off")) == ParseBool(Some("false")) == ParseBool(Some("no")) == Some(false)
    ensures v != "on" && v != "true" && v != "yes" && v != "off" && v != "false" && v != "no" ==> ParseBool(Some(v)) == None
  {
  }

  /** Only raw images, unless the machine reads its images itself. */
  lemma FormatMeans(own: bool, s: Settings, v: Option<Text>)
    ensures ApplyOpt(own, s, Opt("format", v)) == if own || v == Some("raw") then Some(s) else None
  {
    hide ParseBool, IfNamed, IfName, ParseInt, Trunc;
  }

  /** White space before a number: blank, tab, line feed, vertical tab, form feed, carriage return. */
  lemma SpacesSkipped(v: Text)
    ensures ParseInt(" " + v) == ParseInt(v) && ParseInt("\t" + v) == ParseInt(v) && ParseInt("\r" + v) == ParseInt(v)
    ensures ParseInt("\n" + v) == ParseInt(v) && ParseInt([11 as char] + v) == ParseInt(v) && ParseInt([12 as char] + v) == ParseInt(v)
    ensures forall c :: c !in " \t\r\n" && c != 11 as char && c != 12 as char && c != '+' && c != '-' && !('0' <= c <= '9') ==>
      ParseInt([c] + v) == None
  {
    assert (" " + v)[1..] == v && ("\t" + v)[1..] == v && ("\r" + v)[1..] == v && ("\n" + v)[1..] == v;
    assert ([11 as char] + v)[1..] == v && ([12 as char] + v)[1..] == v;
  }

  // --------------------------------------------------------------------- the place

  /** Where an explicit index leads: two drives on an IDE bus, seven on a SCSI bus, elsewhere one bus for all. */
  lemma IndexLeads(ds: seq<Drive>, s: Settings, bus: int, unit: int)
    requires s.index >= 0 && SlotAsked(ds, s, bus, unit)
    ensures s.iface == Ide ==> 2 * bus + unit == s.index && 0 <= unit < 2
    ensures s.iface == Scsi ==> 7 * bus + unit == s.index && 0 <= unit < 7
    ensures s.iface != Ide && s.iface != Scsi ==> bus == 0 && unit == s.index
  {
    hide Taken;
  }

  /** Where an explicit unit leads: to the bus named, or the first. */
  lemma UnitLeads(ds: seq<Drive>, s: Settings, bus: int, unit: int)
    requires s.index < 0 && s.unit >= 0 && SlotAsked(ds, s, bus, unit)
    ensures unit == s.unit && bus == if s.bus >= 0 then s.bus else 0
  {
    hide Taken, MaxDevs;
  }

  /** Which settings contradict themselves. */
  lemma CoherentMeans(s: Settings)
    ensures Coherent(s) <==>
      && !(s.media == Cdrom && s.iface == Floppy) && !(s.media == Cdrom && s.readonlySet && !s.readonly)
      && (s.haveFile || s.media == Cdrom || s.iface == Floppy)
  {
  }

  /** The name of a drive without an id. */
  lemma NameGiven(s: Settings, bus: nat, unit: nat)
    ensures s.iface == Ide && s.media == Disk ==> DefaultName(s, bus, unit) == "ide" + Dec(bus) + "-hd" + Dec(unit)
    ensures s.iface == Scsi && s.media == Cdrom ==> DefaultName(s, bus, unit) == "scsi" + Dec(bus) + "-cd" + Dec(unit)
    ensures s.iface == Floppy ==> DefaultName(s, bus, unit) == "floppy" + Dec(unit)
  {
    hide Dec;
    assert "-" + "hd" == "-hd" && "-" + "cd" == "-cd";
  }
}
