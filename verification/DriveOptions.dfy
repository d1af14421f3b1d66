/** -drive option strings (core/src/drive.c): the in-place splitter and the printer it undoes. */
module DriveOptions {
  import opened Runs

  type Text = seq<char>

  datatype Opt = Opt(key: Text, val: Option<Text>)

  /** An option as read so far, and what is left of the text. */
  datatype Scanned = Scanned(opt: Opt, rest: Text)

  function Push(o: Opt, c: char): Opt {
    match o.val
    case None => o.(key := o.key + [c])
    case Some(v) => o.(val := Some(v + [c]))
  }

  /** Reads on in t: ",," is a comma, "," ends the option, the first "=" starts its value. */
  function Scan(t: Text, o: Opt): Scanned
    decreases |t|
  {
    if t == [] then Scanned(o, t)
    else if t[0] == ',' then
      if |t| > 1 && t[1] == ',' then Scan(t[2..], Push(o, ',')) else Scanned(o, t[1..])
    else if t[0] == '=' && o.val.None? then Scan(t[1..], o.(val := Some([])))
    else Scan(t[1..], Push(o, t[0]))
  }

  lemma {:induction false} ScanConsumes(t: Text, o: Opt)
    ensures |Scan(t, o).rest| <= |t| && (t != [] ==> |Scan(t, o).rest| < |t|)
    ensures Scan(t, o).rest == t[|t| - |Scan(t, o).rest|..]
    decreases |t|
  {
    if t != [] {
      if t[0] == ',' {
        if |t| > 1 && t[1] == ',' { ScanConsumes(t[2..], Push(o, ',')); }
      } else if t[0] == '=' && o.val.None? {
        ScanConsumes(t[1..], o.(val := Some([])));
      } else {
        ScanConsumes(t[1..], Push(o, t[0]));
      }
    }
  }

  /** All options of a text. */
  function Options(t: Text): seq<Opt>
    decreases |t|
  {
    if t == [] then []
    else
      var s := Scan(t, Opt([], None));
      ScanConsumes(t, Opt([], None));
      [s.opt] + Options(s.rest)
  }

  // ------------------------------------------------------------------- printing

  function Escape(v: Text): Text {
    if v == [] then [] else (if v[0] == ',' then [',', ','] else [v[0]]) + Escape(v[1..])
  }

  function PrintOpt(o: Opt): Text {
    o.key + (if o.val.Some? then ['='] + Escape(o.val.value) else [])
  }

  function Print(os: seq<Opt>): Text {
    if os == [] then [] else if |os| == 1 then PrintOpt(os[0]) else PrintOpt(os[0]) + [','] + Print(os[1..])
  }

  /** A key that can be printed: not empty, no comma, no equals sign. */
  predicate PlainKey(k: Text) { k != [] && forall c :: c in k ==> c != ',' && c != '=' }

  /** Where an option may end: at the end of the text or before a single comma. */
  predicate EndsOption(t: Text) { t == [] || (t[0] == ',' && (|t| == 1 || t[1] != ',')) }

  lemma {:induction false} ScanValue(v: Text, o: Opt, t: Text)
    requires o.val.Some? && EndsOption(t)
    ensures Scan(Escape(v) + t, o) == Scanned(o.(val := Some(o.val.value + v)), if t == [] then [] else t[1..])
    decreases |v|
  {
    hide Scan, Escape, EndsOption;
    if v == [] {
      EscapeNothing(t);
      assert o.val.value + v == o.val.value;
      ScanEnd(t, o);
    } else {
      EscapedFirst(v, o, t);
      ScanValue(v[1..], Push(o, v[0]), t);
      assert o.val.value + [v[0]] + v[1..] == o.val.value + v;
    }
  }

  lemma EscapeNothing(t: Text)
    ensures Escape([]) + t == t
  {
  }

  /** One character of a value, escaped or not, is read back. */
  lemma EscapedFirst(v: Text, o: Opt, t: Text)
    requires o.val.Some? && v != []
    ensures Scan(Escape(v) + t, o) == Scan(Escape(v[1..]) + t, Push(o, v[0]))
  {
    hide Scan, Push, Escape;
    var r := Escape(v[1..]) + t;
    EscapeUnfolds(v);
    if v[0] == ',' {
      assert [',', ','] + Escape(v[1..]) + t == [',', ','] + r;
      assert ([',', ','] + r)[2..] == r;
      ScanStep([',', ','] + r, o);
    } else {
      assert [v[0]] + Escape(v[1..]) + t == [v[0]] + r;
      assert ([v[0]] + r)[1..] == r;
      ScanStep([v[0]] + r, o);
    }
  }

  lemma EscapeUnfolds(v: Text)
    requires v != []
    ensures Escape(v) == (if v[0] == ',' then [',', ','] else [v[0]]) + Escape(v[1..])
  {
  }

  lemma {:induction false} ScanKey(k: Text, key: Text, t: Text)
    requires forall c :: c in k ==> c != ',' && c != '='
    ensures Scan(k + t, Opt(key, None)) == Scan(t, Opt(key + k, None))
    decreases |k|
  {
    if k == [] {
      assert k + t == t && key + k == key;
    } else {
      assert (k + t)[1..] == k[1..] + t;
      assert key + [k[0]] + k[1..] == key + k;
      assert k[0] in k && forall c :: c in k[1..] ==> c in k;
      ScanKey(k[1..], key + [k[0]], t);
    }
  }

  lemma ScanPrinted(o: Opt, t: Text)
    requires PlainKey(o.key) && EndsOption(t)
    ensures Scan(PrintOpt(o) + t, Opt([], None)) == Scanned(o, if t == [] then [] else t[1..])
  {
    hide Scan, Escape;
    var tail := if o.val.Some? then ['='] + Escape(o.val.value) else [];
    assert PrintOpt(o) + t == o.key + (tail + t);
    ScanKey(o.key, [], tail + t);
    assert [] + o.key == o.key;
    if o.val.Some? {
      assert tail + t == ['='] + (Escape(o.val.value) + t);
      ScanEquals(Escape(o.val.value) + t, o.key);
      ScanValue(o.val.value, Opt(o.key, Some([])), t);
      assert [] + o.val.value == o.val.value;
    } else {
      assert tail + t == t;
      ScanEnd(t, o);
    }
  }

  lemma ScanEquals(t: Text, key: Text)
    ensures Scan(['='] + t, Opt(key, None)) == Scan(t, Opt(key, Some([])))
  {
    assert (['='] + t)[1..] == t;
  }

  lemma ScanEnd(t: Text, o: Opt)
    requires EndsOption(t)
    ensures Scan(t, o) == Scanned(o, if t == [] then [] else t[1..])
  {
  }

  /** Printing and splitting undo each other, whatever the values hold. */
  lemma {:induction false} RoundTrip(os: seq<Opt>)
    requires forall o :: o in os ==> PlainKey(o.key)
    ensures Options(Print(os)) == os
    decreases |os|
  {
    hide Scan, PrintOpt, Options, Print, EndsOption;
    if os == [] {
      NoOptions();
    } else {
      assert os[0] in os;
      PrintOptStarts(os[0]);
      PrintStarts(os);
      RoundTrip(os[1..]);
      PrintedList(os);
      OptionsStep(Print(os));
      assert os == [os[0]] + os[1..];
    }
  }

  lemma NoOptions()
    ensures Options([]) == [] && Print([]) == []
  {
  }

  lemma OptionsStep(t: Text)
    requires t != []
    ensures Options(t) == [Scan(t, Opt([], None)).opt] + Options(Scan(t, Opt([], None)).rest)
  {
    hide Scan;
  }

  /** The first option of a printed list is read back, and leaves the printed rest. */
  lemma PrintedList(os: seq<Opt>)
    requires os != [] && forall o :: o in os ==> PlainKey(o.key)
    ensures Scan(Print(os), Opt([], None)) == Scanned(os[0], Print(os[1..]))
  {
    hide Scan, PrintOpt;
    assert os[0] in os;
    if |os| == 1 {
      assert PrintOpt(os[0]) + [] == PrintOpt(os[0]);
      ScanPrinted(os[0], []);
    } else {
      var t := [','] + Print(os[1..]);
      assert PrintOpt(os[0]) + [','] + Print(os[1..]) == PrintOpt(os[0]) + t;
      assert os[1] in os && os[1..][0] == os[1];
      PrintOptStarts(os[1]);
      PrintStarts(os[1..]);
      ScanPrinted(os[0], t);
      assert t[1..] == Print(os[1..]);
    }
  }

  lemma PrintStarts(os: seq<Opt>)
    requires os != [] && PrintOpt(os[0]) != []
    ensures Print(os) != [] && Print(os)[0] == PrintOpt(os[0])[0]
  {
  }

  lemma PrintOptStarts(o: Opt)
    requires PlainKey(o.key)
    ensures PrintOpt(o) != [] && PrintOpt(o)[0] == o.key[0] && o.key[0] != ','
  {
    assert o.key[0] in o.key;
  }

  // ------------------------------------------------------- splitting in place

  const NUL := '\0'

  /** The text at p of a NUL-terminated buffer. */
  predicate HasText(b: seq<char>, p: nat, t: Text) {
    && p + |t| < |b| && b[p..p + |t|] == t && b[p + |t|] == NUL && NUL !in t
  }

  /** The option a caller sees through the two pointers it was given. */
  predicate HasOpt(b: seq<char>, key: nat, val: Option<nat>, o: Opt) {
    && HasText(b, key, o.key)
    && (val.Some? <==> o.val.Some?)
    && (val.Some? ==> HasText(b, val.value, o.val.value))
  }

  /** Partway through next_opt: the option so far lies between p and out, unread text from s on. */
  ghost predicate Partway(b: seq<char>, b0: seq<char>, p: nat, t: Text, out: nat, s: nat, val: Option<nat>, o: Opt) {
    && p <= out <= s <= p + |t| < |b| == |b0|
    && b[..p] == b0[..p] && b[s..] == b0[s..]
    && Scan(t, Opt([], None)) == Scan(t[s - p..], o)
    && NUL !in o.key && (o.val.Some? ==> NUL !in o.val.value)
    && match val
       case None => o.val.None? && b[p..out] == o.key
       case Some(v) => o.val.Some? && p < v <= out && b[p..v - 1] == o.key && b[v - 1] == NUL && b[v..out] == o.val.value
  }

  /** The character at s. */
  lemma NextChar(b: seq<char>, b0: seq<char>, p: nat, t: Text, out: nat, s: nat, val: Option<nat>, o: Opt)
    requires Partway(b, b0, p, t, out, s, val, o) && HasText(b0, p, t)
    ensures p <= out <= s <= p + |t| < |b| == |b0| && (b[s] == NUL <==> s == p + |t|)
    ensures s < p + |t| ==> b[s] == t[s - p] && s + 1 < |b| && b[s + 1] == (if s + 1 < p + |t| then t[s + 1 - p] else NUL)
  {
    assert b[s..][0] == b0[s..][0];
    assert b0[p..p + |t|] == t;
    if s < p + |t| {
      assert b0[p..p + |t|][s - p] == t[s - p] && t[s - p] in t;
      assert b[s..][1] == b0[s..][1];
      if s + 1 < p + |t| { assert b0[p..p + |t|][s + 1 - p] == t[s + 1 - p] && t[s + 1 - p] in t; }
    }
  }

  /** Copying one character, having read d of the text. */
  lemma Copied(b: seq<char>, b0: seq<char>, p: nat, t: Text, out: nat, s: nat, val: Option<nat>, o: Opt, c: char, d: nat)
    requires Partway(b, b0, p, t, out, s, val, o) && c != NUL && 1 <= d && s + d <= p + |t|
    requires Scan(t[s - p..], o) == Scan(t[s + d - p..], Push(o, c))
    ensures Partway(b[out := c], b0, p, t, out + 1, s + d, val, Push(o, c))
  {
    hide Scan;
    var b' := b[out := c];
    assert b'[s + d..] == b[s..][d..] == b0[s..][d..] == b0[s + d..];
    assert b'[..p] == b[..p];
    if val.None? {
      assert b'[p..out + 1] == b[p..out] + [c];
    } else {
      var v := val.value;
      assert b'[v..out + 1] == b[v..out] + [c] && b'[p..v - 1] == b[p..v - 1];
    }
  }

  /** The first "=": the key ends, the value starts. */
  lemma ValueStarts(b: seq<char>, b0: seq<char>, p: nat, t: Text, out: nat, s: nat, o: Opt)
    requires Partway(b, b0, p, t, out, s, None, o) && s < p + |t|
    requires Scan(t[s - p..], o) == Scan(t[s + 1 - p..], o.(val := Some([])))
    ensures Partway(b[out := NUL], b0, p, t, out + 1, s + 1, Some(out + 1), o.(val := Some([])))
  {
    hide Scan;
    var b' := b[out := NUL];
    assert b'[s + 1..] == b[s..][1..] == b0[s..][1..] == b0[s + 1..];
    assert b'[..p] == b[..p];
    assert b'[p..out] == b[p..out];
  }

  /** Ended at s: the last terminator is written no further than s. */
  lemma Ended(b: seq<char>, b0: seq<char>, p: nat, t: Text, out: nat, s: nat, val: Option<nat>, o: Opt, s': nat)
    requires Partway(b, b0, p, t, out, s, val, o) && HasText(b0, p, t)
    requires s' == (if s == p + |t| then s else s + 1)
    ensures s' <= p + |t| && b[out := NUL][s'..] == b0[s'..] && b[out := NUL][..p] == b0[..p]
    ensures HasOpt(b[out := NUL], p, val, o)
  {
    hide Scan;
    var b' := b[out := NUL];
    assert b[s..][0] == b0[s..][0] == b0[s];
    assert b'[..p] == b[..p];
    assert b'[s'..] == b0[s'..] by {
      forall i | s' <= i < |b| ensures b'[i] == b0[i] { assert b[s..][i - s] == b0[s..][i - s]; }
    }
    match val {
      case None => assert b'[p..out] == b[p..out];
      case Some(v) => assert b'[p..v - 1] == b[p..v - 1] && b'[v..out] == b[v..out];
    }
  }

  /** Where the splitter stops: at the end of the text or at a lone comma. */
  predicate StopsAt(t: Text, k: nat) { k == |t| || (k < |t| && t[k] == ',' && (k + 1 == |t| || t[k + 1] != ',')) }

  /** Reads one option, packing it over what has been read. */
  method Pack(buf: array<char>, p: nat, ghost t: Text) returns (out: nat, s: nat, val: Option<nat>, ghost o: Opt)
    requires HasText(buf[..], p, t)
    modifies buf
    ensures Partway(buf[..], old(buf[..]), p, t, out, s, val, o) && StopsAt(t, s - p)
  {
    hide Scan, Push, Partway, HasText, StopsAt;
    ghost var b0 := buf[..];
    out, s, val, o := p, p, None, Opt([], None);
    PackStart(b0, p, t);
    NextChar(b0, b0, p, t, out, s, val, o);
    while buf[s] != NUL
      invariant p <= out <= s <= p + |t| < buf.Length && (buf[s] == NUL <==> s == p + |t|)
      invariant Partway(buf[..], b0, p, t, out, s, val, o)
      decreases p + |t| - s
    {
      ghost var b := buf[..];
      NextChar(b, b0, p, t, out, s, val, o);
      PackStep(t, s - p, o);
      ValueBegun(b, b0, p, t, out, s, val, o);
      if buf[s] == ',' {
        if buf[s + 1] == ',' {
          Copied(b, b0, p, t, out, s, val, o, ',', 2);
          buf[out] := ',';
          assert buf[..] == b[out := ','];
          out, s, o := out + 1, s + 2, Push(o, ',');
          NextChar(buf[..], b0, p, t, out, s, val, o);
          continue;
        }
        return;
      }
      if buf[s] == '=' && val.None? {
        ValueStarts(b, b0, p, t, out, s, o);
        buf[out] := NUL;
        assert buf[..] == b[out := NUL];
        out := out + 1;
        val, s, o := Some(out), s + 1, o.(val := Some([]));
        NextChar(buf[..], b0, p, t, out, s, val, o);
        continue;
      }
      Copied(b, b0, p, t, out, s, val, o, buf[s], 1);
      buf[out] := buf[s];
      assert buf[..] == b[out := t[s - p]];
      out, s, o := out + 1, s + 1, Push(o, t[s - p]);
      NextChar(buf[..], b0, p, t, out, s, val, o);
    }
    PackStep(t, |t|, o);
  }

  lemma PackStart(b: seq<char>, p: nat, t: Text)
    requires HasText(b, p, t)
    ensures Partway(b, b, p, t, p, p, None, Opt([], None))
  {
    assert t[0..] == t;
  }

  lemma ValueBegun(b: seq<char>, b0: seq<char>, p: nat, t: Text, out: nat, s: nat, val: Option<nat>, o: Opt)
    requires Partway(b, b0, p, t, out, s, val, o)
    ensures val.Some? <==> o.val.Some?
  {
  }

  lemma PackStep(t: Text, k: nat, o: Opt)
    requires k <= |t|
    ensures k == |t| ==> StopsAt(t, k)
    ensures k < |t| && t[k] == ',' && k + 1 < |t| && t[k + 1] == ',' ==> Scan(t[k..], o) == Scan(t[k + 2..], Push(o, ','))
    ensures k < |t| && t[k] == ',' && !(k + 1 < |t| && t[k + 1] == ',') ==> StopsAt(t, k)
    ensures k < |t| && t[k] == '=' && o.val.None? ==> Scan(t[k..], o) == Scan(t[k + 1..], o.(val := Some([])))
    ensures k < |t| && t[k] != ',' && (t[k] != '=' || o.val.Some?) ==> Scan(t[k..], o) == Scan(t[k + 1..], Push(o, t[k]))
  {
    hide Push;
    if k < |t| {
      assert t[k..][1..] == t[k + 1..];
      if k + 1 < |t| { assert t[k..][2..] == t[k + 2..]; }
    }
  }

  lemma StoppedScan(t: Text, k: nat, o: Opt)
    requires StopsAt(t, k)
    ensures Scan(t[k..], o) == Scanned(o, if k == |t| then [] else t[k + 1..])
  {
    hide Push;
    if k < |t| { assert t[k..][1..] == t[k + 1..]; }
  }

  /** Splits the next option off the text at p, in place; None at the end of the text. */
  method NextOpt(buf: array<char>, p: nat, ghost t: Text) returns (key: Option<nat>, val: Option<nat>, p': nat)
    requires HasText(buf[..], p, t)
    modifies buf
    ensures key.None? <==> t == []
    ensures key.None? ==> p' == p && buf[..] == old(buf[..])
    ensures key.Some? ==>
      var s := Scan(t, Opt([], None));
      && key.value == p < p' <= buf.Length && p' == p + |t| - |s.rest|
      && HasOpt(buf[..], p, val, s.opt)
      && buf[..p] == old(buf[..p]) && buf[p'..] == old(buf[p'..])
  {
    hide Scan, Push, HasText, HasOpt, Partway;
    ghost var b0 := buf[..];
    PackStart(b0, p, t);
    NextChar(b0, b0, p, t, p, p, None, Opt([], None));
    if buf[p] == NUL { return None, None, p; }
    var out, s;
    ghost var o;
    out, s, val, o := Pack(buf, p, t);
    ghost var b := buf[..];
    NextChar(b, b0, p, t, out, s, val, o);
    StoppedScan(t, s - p, o);
    PartwayScan(b, b0, p, t, out, s, val, o);
    p' := if buf[s] == ',' then s + 1 else s;
    Ended(b, b0, p, t, out, s, val, o, p');
    buf[out] := NUL;
    assert buf[..] == b[out := NUL];
    ScanConsumes(t, Opt([], None));
    key := Some(p);
  }

  lemma PartwayScan(b: seq<char>, b0: seq<char>, p: nat, t: Text, out: nat, s: nat, val: Option<nat>, o: Opt)
    requires Partway(b, b0, p, t, out, s, val, o)
    ensures Scan(t, Opt([], None)) == Scan(t[s - p..], o)
  {
  }

  // --------------------------------------------------------------- whole strings

  /** The C string at p. */
  function CStr(b: seq<char>, p: nat): Text
    decreases |b| - p
  {
    if p >= |b| || b[p] == NUL then [] else [b[p]] + CStr(b, p + 1)
  }

  lemma {:induction false} CStrIs(b: seq<char>, p: nat, t: Text)
    requires HasText(b, p, t)
    ensures CStr(b, p) == t
    decreases |t|
  {
    if t != [] {
      assert b[p..p + |t|][0] == t[0] && t[0] in t;
      assert b[p + 1..p + 1 + |t[1..]|] == b[p..p + |t|][1..];
      CStrIs(b, p + 1, t[1..]);
    } else {
      assert b[p] == NUL;
    }
  }

  /** What is left after an option is still where it was. */
  lemma RestStays(b: seq<char>, b0: seq<char>, p: nat, p': nat, t: Text, rest: Text)
    requires HasText(b0, p, t) && |rest| <= |t| && rest == t[|t| - |rest|..] && p' == p + |t| - |rest|
    requires |b| == |b0| && p' <= |b| && b[p'..] == b0[p'..]
    ensures HasText(b, p', rest)
  {
    assert b0[p'..p' + |rest|] == b0[p..p + |t|][|t| - |rest|..];
    assert b[p'..][..|rest|] == b[p'..p' + |rest|] && b0[p'..][..|rest|] == b0[p'..p' + |rest|];
    assert b[p'..][|rest|] == b0[p'..][|rest|];
    assert forall c :: c in rest ==> c in t;
  }

  /** Splits a whole buffer, option by option. */
  method SplitAll(buf: array<char>, ghost t: Text) returns (os: seq<Opt>)
    requires HasText(buf[..], 0, t)
    modifies buf
    ensures os == Options(t)
  {
    hide Scan, HasText, HasOpt, CStr;
    os := [];
    var p: nat := 0;
    ghost var rest := t;
    while true
      invariant HasText(buf[..], p, rest) && os + Options(rest) == Options(t)
      decreases |rest|
    {
      ghost var b0 := buf[..];
      var key, val, p' := NextOpt(buf, p, rest);
      if key.None? { break; }
      ghost var s := Scan(rest, Opt([], None));
      ScanConsumes(rest, Opt([], None));
      RestStays(buf[..], b0, p, p', rest, s.rest);
      OptIs(buf[..], p, val, s.opt);
      var o := Opt(CStr(buf[..], p), if val.Some? then Some(CStr(buf[..], val.value)) else None);
      assert Options(rest) == [o] + Options(s.rest);
      os, p, rest := os + [o], p', s.rest;
    }
  }

  lemma OptIs(b: seq<char>, key: nat, val: Option<nat>, o: Opt)
    requires HasOpt(b, key, val, o)
    ensures o == Opt(CStr(b, key), if val.Some? then Some(CStr(b, val.value)) else None)
  {
    hide CStr, HasText;
    CStrIs(b, key, o.key);
    if val.Some? { CStrIs(b, val.value, o.val.value); }
  }

  /** The cases of Scan, one by one. */
  lemma ScanStep(t: Text, o: Opt)
    ensures t != [] && t[0] == ',' && |t| > 1 && t[1] == ',' ==> Scan(t, o) == Scan(t[2..], Push(o, ','))
    ensures t != [] && t[0] == '=' && o.val.None? ==> Scan(t, o) == Scan(t[1..], o.(val := Some([])))
    ensures t != [] && t[0] != ',' && (t[0] != '=' || o.val.Some?) ==> Scan(t, o) == Scan(t[1..], Push(o, t[0]))
  {
  }
}
