/** Cutting a QMP byte stream into top-level JSON values (core/src/monitor_qmp.c, qmp_feed). */
module QmpFraming {
  import opened Runs

  type Text = seq<char>

  const MAX_INPUT: nat := 1048576

  datatype Event = Frame(text: Text) | BadWord(text: Text) | TooLarge

  datatype State = State(buf: Text, depth: int, inString: bool, escape: bool)

  datatype Out = Out(s: State, events: seq<Event>)

  predicate Space(c: char) { c == ' ' || '\t' <= c <= '\r' }
  predicate Opens(c: char) { c == '{' || c == '[' }
  predicate Closes(c: char) { c == '}' || c == ']' }

  function Reset(): State { State([], 0, false, false) }

  /** A word outside any brackets is being collected. */
  predicate InWord(s: State) { |s.buf| > 0 && s.depth == 0 && !Opens(s.buf[0]) }

  /** The character just appended: strings hide brackets, a backslash hides a quote. */
  function Track(s: State, ch: char): Out {
    if s.inString then
      Out(s.(escape := !s.escape && ch == '\\', inString := s.escape || ch != '"'), [])
    else if ch == '"' then Out(s.(inString := true), [])
    else if Opens(ch) then Out(s.(depth := s.depth + 1), [])
    else if Closes(ch) then
      if s.depth - 1 <= 0 then Out(Reset(), [Frame(s.buf)]) else Out(s.(depth := s.depth - 1), [])
    else Out(s, [])
  }

  function Step(s: State, ch: char): Out {
    if s.buf == [] && Space(ch) then Out(s, [])
    else if InWord(s) then
      if Space(ch) then Out(Reset(), [BadWord(s.buf)])
      else Out(if |s.buf| < 64 then s.(buf := s.buf + [ch]) else s, [])
    else if |s.buf| >= MAX_INPUT then Out(Reset(), [TooLarge])
    else Track(s.(buf := s.buf + [ch]), ch)
  }

  function Feed(s: State, t: Text): Out
    decreases |t|
  {
    if t == [] then Out(s, [])
    else
      var o := Step(s, t[0]);
      var r := Feed(o.s, t[1..]);
      Out(r.s, o.events + r.events)
  }

  /** Reads are fed one after another. */
  function FeedReads(s: State, reads_: seq<Text>): Out
    decreases |reads_|
  {
    if reads_ == [] then Out(s, [])
    else
      var o := Feed(s, reads_[0]);
      var r := FeedReads(o.s, reads_[1..]);
      Out(r.s, o.events + r.events)
  }

  lemma {:induction false} FeedAppend(s: State, a: Text, b: Text)
    ensures var x := Feed(s, a); var y := Feed(x.s, b); Feed(s, a + b) == Out(y.s, x.events + y.events)
    decreases |a|
  {
    hide Step;
    if a == [] {
      assert a + b == b;
    } else {
      assert (a + b)[1..] == a[1..] + b;
      FeedAppend(Step(s, a[0]).s, a[1..], b);
    }
  }

  /** How a stream is cut into reads makes no difference. */
  lemma {:induction false} CutsDoNotMatter(s: State, reads_: seq<Text>)
    ensures FeedReads(s, reads_) == Feed(s, Joined(reads_))
    decreases |reads_|
  {
    hide Step;
    if reads_ != [] {
      CutsDoNotMatter(Feed(s, reads_[0]).s, reads_[1..]);
      FeedAppend(s, reads_[0], Joined(reads_[1..]));
    }
  }

  /** Depth is zero exactly when nothing or a bare word is buffered, never negative, and no
      escape is pending outside a string. */
  predicate Inv(s: State) {
    && s.depth >= 0 && |s.buf| <= MAX_INPUT
    && (s.depth == 0 <==> s.buf == [] || !Opens(s.buf[0]))
    && (s.escape ==> s.inString)
    && (s.buf == [] ==> s == Reset())
  }

  lemma {:induction false} InvFeed(s: State, t: Text)
    requires Inv(s)
    ensures Inv(Feed(s, t).s)
    decreases |t|
  {
    hide Inv, Step;
    if t != [] {
      InvStep(s, t[0]);
      InvFeed(Step(s, t[0]).s, t[1..]);
    }
  }

  lemma InvStep(s: State, ch: char)
    requires Inv(s)
    ensures Inv(Step(s, ch).s)
  {
  }

  // ------------------------------------------------------------- JSON by nesting

  /** What may stand in a string: any character but quote and backslash, or an escaped character. */
  datatype StringChar = Raw(c: char) | Escaped(c: char)

  /** A bracketed value as it nests: brackets, strings, and whatever else between them. */
  datatype Item =
    | Plain(c: char)
    | Quoted(body: seq<StringChar>)
    | Group(opening: char, items: Items, closing: char)

  datatype Items = Nil | Cons(head: Item, tail: Items)

  predicate WellFormedString(b: seq<StringChar>) {
    b == [] || ((b[0].Raw? ==> b[0].c != '"' && b[0].c != '\\') && WellFormedString(b[1..]))
  }

  predicate WellFormed(i: Item) {
    match i
    case Plain(c) => c != '"' && !Opens(c) && !Closes(c)
    case Quoted(b) => WellFormedString(b)
    case Group(o, items, c) => Opens(o) && Closes(c) && AllWellFormed(items)
  }

  predicate AllWellFormed(xs: Items) { xs.Nil? || (WellFormed(xs.head) && AllWellFormed(xs.tail)) }

  function StringText(b: seq<StringChar>): Text {
    if b == [] then [] else (if b[0].Raw? then [b[0].c] else ['\\', b[0].c]) + StringText(b[1..])
  }

  function ItemText(i: Item): Text {
    match i
    case Plain(c) => [c]
    case Quoted(b) => ['"'] + StringText(b) + ['"']
    case Group(o, items, c) => [o] + ItemsText(items) + [c]
  }

  function ItemsText(xs: Items): Text { if xs.Nil? then [] else ItemText(xs.head) + ItemsText(xs.tail) }

  /** Inside brackets, outside strings. */
  predicate Nested(s: State, room: nat) {
    s.depth > 0 && |s.buf| > 0 && !s.inString && !s.escape && |s.buf| + room <= MAX_INPUT
  }

  lemma StepNested(s: State, ch: char)
    requires s.depth > 0 && 0 < |s.buf| < MAX_INPUT
    ensures Step(s, ch) == Track(s.(buf := s.buf + [ch]), ch)
  {
  }

  lemma FeedOne(s: State, ch: char, t: Text)
    ensures Feed(s, [ch] + t) == Out(Feed(Step(s, ch).s, t).s, Step(s, ch).events + Feed(Step(s, ch).s, t).events)
  {
    hide Step;
    assert ([ch] + t)[1..] == t;
  }

  lemma {:induction false} FeedString(s: State, b: seq<StringChar>, t: Text)
    requires WellFormedString(b) && s.depth > 0 && |s.buf| > 0 && s.inString && !s.escape
    requires |s.buf| + |StringText(b)| <= MAX_INPUT
    ensures Feed(s, StringText(b) + t) == Feed(s.(buf := s.buf + StringText(b)), t)
    decreases |b|
  {
    hide Step, Feed;
    if b == [] {
      assert StringText(b) + t == t && s.buf + StringText(b) == s.buf;
    } else {
      var rest := StringText(b[1..]) + t;
      var c := b[0].c;
      if b[0].Raw? {
        assert StringText(b) + t == [c] + rest;
        FeedOne(s, c, rest);
        StepNested(s, c);
        var s1 := s.(buf := s.buf + [c]);
        FeedString(s1, b[1..], t);
        assert s1.buf + StringText(b[1..]) == s.buf + StringText(b);
      } else {
        assert StringText(b) + t == ['\\'] + ([c] + rest);
        FeedOne(s, '\\', [c] + rest);
        StepNested(s, '\\');
        var s1 := s.(buf := s.buf + ['\\'], escape := true);
        FeedOne(s1, c, rest);
        StepNested(s1, c);
        var s2 := s.(buf := s.buf + ['\\'] + [c]);
        FeedString(s2, b[1..], t);
        assert s2.buf + StringText(b[1..]) == s.buf + StringText(b);
      }
    }
  }

  /** Everything inside brackets is collected and changes nothing else. */
  lemma {:induction false} FeedItem(s: State, i: Item, t: Text)
    requires WellFormed(i) && Nested(s, |ItemText(i)|)
    ensures Feed(s, ItemText(i) + t) == Feed(s.(buf := s.buf + ItemText(i)), t)
    decreases i, 1
  {
    hide Step, Feed, StringText, ItemsText;
    match i {
      case Plain(c) =>
        FeedOne(s, c, t);
        StepNested(s, c);
        PlainStep(s.(buf := s.buf + [c]), c, t);
      case Quoted(b) => FeedQuoted(s, b, t);
      case Group(o, items, c) => FeedGroup(s, o, items, c, t);
    }
  }

  lemma PlainStep(s: State, c: char, t: Text)
    requires !s.inString && c != '"' && !Opens(c) && !Closes(c)
    ensures Track(s, c) == Out(s, []) && Out(Feed(s, t).s, [] + Feed(s, t).events) == Feed(s, t)
  {
    hide Feed;
  }

  lemma FeedQuoted(s: State, b: seq<StringChar>, t: Text)
    requires WellFormedString(b) && Nested(s, |StringText(b)| + 2)
    ensures Feed(s, ['"'] + StringText(b) + ['"'] + t) == Feed(s.(buf := s.buf + (['"'] + StringText(b) + ['"'])), t)
  {
    hide Step, Feed, StringText, WellFormedString;
    var body := StringText(b);
    assert ['"'] + body + ['"'] + t == ['"'] + (body + (['"'] + t));
    FeedOne(s, '"', body + (['"'] + t));
    StepNested(s, '"');
    var s1 := s.(buf := s.buf + ['"'], inString := true);
    FeedString(s1, b, ['"'] + t);
    var s2 := s1.(buf := s1.buf + body);
    FeedOne(s2, '"', t);
    StepNested(s2, '"');
    assert s2.buf + ['"'] == s.buf + (['"'] + body + ['"']);
  }

  lemma {:induction false} FeedGroup(s: State, o: char, items: Items, c: char, t: Text)
    requires Opens(o) && Closes(c) && AllWellFormed(items) && Nested(s, |ItemsText(items)| + 2)
    ensures Feed(s, [o] + ItemsText(items) + [c] + t) == Feed(s.(buf := s.buf + ([o] + ItemsText(items) + [c])), t)
    decreases items, 2
  {
    hide Step, Feed, ItemsText;
    var body := ItemsText(items);
    assert [o] + body + [c] + t == [o] + (body + ([c] + t));
    FeedOne(s, o, body + ([c] + t));
    StepNested(s, o);
    var s1 := s.(buf := s.buf + [o], depth := s.depth + 1);
    FeedItems(s1, items, [c] + t);
    var s2 := s1.(buf := s1.buf + body);
    FeedOne(s2, c, t);
    StepNested(s2, c);
    assert s2.buf + [c] == s.buf + ([o] + body + [c]);
  }

  lemma {:induction false} FeedItems(s: State, xs: Items, t: Text)
    requires AllWellFormed(xs) && Nested(s, |ItemsText(xs)|)
    ensures Feed(s, ItemsText(xs) + t) == Feed(s.(buf := s.buf + ItemsText(xs)), t)
    decreases xs, 0
  {
    hide Step, Feed, ItemText;
    if xs.Nil? {
      assert ItemsText(xs) + t == t && s.buf + ItemsText(xs) == s.buf;
    } else {
      var a, b := ItemText(xs.head), ItemsText(xs.tail);
      assert a + b + t == a + (b + t);
      FeedItem(s, xs.head, b + t);
      FeedItems(s.(buf := s.buf + a), xs.tail, t);
      assert s.buf + a + b == s.buf + (a + b);
    }
  }

  // --------------------------------------------------------------------- streams

  /** A top-level value, or a bare word. */
  datatype Token = Value(opening: char, items: Items, closing: char) | Word(text: Text)

  predicate ValidToken(k: Token) {
    match k
    case Value(o, items, c) => Opens(o) && Closes(c) && AllWellFormed(items) && |ItemsText(items)| + 2 <= MAX_INPUT
    case Word(w) => w != [] && !Opens(w[0]) && !Closes(w[0]) && forall c :: c in w ==> !Space(c)
  }

  function TokenText(k: Token): Text {
    match k
    case Value(o, items, c) => [o] + ItemsText(items) + [c]
    case Word(w) => w
  }

  /** What the server makes of it: a value is handed over whole, a word reported (64 characters of it). */
  function TokenEvent(k: Token): Event {
    match k
    case Value(_, _, _) => Frame(TokenText(k))
    case Word(w) => BadWord(if |w| <= 64 then w else w[..64])
  }

  predicate Blank(t: Text) { forall c :: c in t ==> Space(c) }

  lemma ValueIsFramed(o: char, items: Items, c: char, t: Text)
    requires ValidToken(Value(o, items, c))
    ensures Feed(Reset(), TokenText(Value(o, items, c)) + t) ==
      Out(Feed(Reset(), t).s, [Frame(TokenText(Value(o, items, c)))] + Feed(Reset(), t).events)
  {
    hide Feed, ItemsText, AllWellFormed;
    var body := ItemsText(items);
    assert [o] + body + [c] + t == [o] + (body + ([c] + t));
    FeedOne(Reset(), o, body + ([c] + t));
    assert [] + [o] == [o];
    var s1 := State([o], 1, false, false);
    assert Step(Reset(), o) == Out(s1, []);
    FeedItems(s1, items, [c] + t);
    var s2 := s1.(buf := [o] + body);
    FeedOne(s2, c, t);
    StepNested(s2, c);
  }

  lemma {:induction false} BlanksIgnored(g: Text, t: Text)
    requires Blank(g)
    ensures Feed(Reset(), g + t) == Feed(Reset(), t)
    decreases |g|
  {
    hide Feed;
    if g == [] {
      assert g + t == t;
    } else {
      assert g[0] in g && forall c :: c in g[1..] ==> c in g;
      assert g + t == [g[0]] + (g[1..] + t);
      FeedOne(Reset(), g[0], g[1..] + t);
      BlanksIgnored(g[1..], t);
    }
  }

  lemma {:induction false} WordCollected(w: Text, s: State, g: char, t: Text)
    requires InWord(s) && |s.buf| <= 64 && Space(g) && forall c :: c in w ==> !Space(c)
    ensures var all := s.buf + w;
      Feed(s, w + [g] + t) == Out(Feed(Reset(), t).s, [BadWord(if |all| <= 64 then all else all[..64])] + Feed(Reset(), t).events)
    decreases |w|
  {
    hide Feed;
    if w == [] {
      assert w + [g] + t == [g] + t && s.buf + w == s.buf;
      FeedOne(s, g, t);
    } else {
      assert w[0] in w && forall c :: c in w[1..] ==> c in w;
      assert w + [g] + t == [w[0]] + (w[1..] + [g] + t);
      FeedOne(s, w[0], w[1..] + [g] + t);
      var s1 := if |s.buf| < 64 then s.(buf := s.buf + [w[0]]) else s;
      WordCollected(w[1..], s1, g, t);
      if |s.buf| < 64 {
        assert s1.buf + w[1..] == s.buf + w;
      } else {
        assert |s.buf| == 64 && (s.buf + w)[..64] == s.buf;
        var all1 := s1.buf + w[1..];
        assert (if |all1| <= 64 then all1 else all1[..64]) == s.buf;
      }
    }
  }

  lemma WordIsReported(w: Text, g: char, t: Text)
    requires ValidToken(Word(w)) && Space(g)
    ensures Feed(Reset(), w + [g] + t) == Out(Feed(Reset(), t).s, [TokenEvent(Word(w))] + Feed(Reset(), t).events)
  {
    hide Feed;
    assert w[0] in w && forall c :: c in w[1..] ==> c in w;
    assert w + [g] + t == [w[0]] + (w[1..] + [g] + t);
    FeedOne(Reset(), w[0], w[1..] + [g] + t);
    assert [] + [w[0]] == [w[0]];
    var s1 := State([w[0]], 0, w[0] == '"', false);
    assert Step(Reset(), w[0]) == Out(s1, []);
    WordCollected(w[1..], s1, g, t);
    assert s1.buf + w[1..] == w;
  }

  /** Tokens, each with the white space after it; a word needs some. */
  datatype Spaced = Spaced(token: Token, gap: Text)

  predicate ValidStream(ts: seq<Spaced>) {
    forall i :: 0 <= i < |ts| ==> ValidToken(ts[i].token) && Blank(ts[i].gap) && (ts[i].token.Word? ==> ts[i].gap != [])
  }

  function StreamText(ts: seq<Spaced>): Text {
    if ts == [] then [] else TokenText(ts[0].token) + ts[0].gap + StreamText(ts[1..])
  }

  function StreamEvents(ts: seq<Spaced>): seq<Event> {
    if ts == [] then [] else [TokenEvent(ts[0].token)] + StreamEvents(ts[1..])
  }

  /** Any stream, cut into reads in any way, is handed over token by token, in order. */
  lemma StreamIsFramed(lead: Text, ts: seq<Spaced>, reads_: seq<Text>)
    requires Blank(lead) && ValidStream(ts) && Joined(reads_) == lead + StreamText(ts)
    ensures FeedReads(Reset(), reads_) == Out(Reset(), StreamEvents(ts))
  {
    hide Feed, StreamText;
    CutsDoNotMatter(Reset(), reads_);
    BlanksIgnored(lead, StreamText(ts));
    StreamFed(ts);
  }

  lemma {:induction false} StreamFed(ts: seq<Spaced>)
    requires ValidStream(ts)
    ensures Feed(Reset(), StreamText(ts)) == Out(Reset(), StreamEvents(ts))
    decreases |ts|
  {
    hide Feed, ValidToken, TokenText, TokenEvent, Blank;
    if ts == [] {
      FeedNothing();
    } else {
      StreamFed(ts[1..]);
      TokenFed(ts[0], StreamText(ts[1..]));
    }
  }

  lemma FeedNothing()
    ensures Feed(Reset(), []) == Out(Reset(), [])
  {
  }

  lemma TokenFed(k: Spaced, t: Text)
    requires ValidToken(k.token) && Blank(k.gap) && (k.token.Word? ==> k.gap != [])
    ensures Feed(Reset(), TokenText(k.token) + k.gap + t) ==
      Out(Feed(Reset(), t).s, [TokenEvent(k.token)] + Feed(Reset(), t).events)
  {
    hide Feed, ItemsText, AllWellFormed;
    var g := k.gap;
    match k.token {
      case Value(o, items, c) =>
        assert TokenText(k.token) + g + t == TokenText(k.token) + (g + t);
        ValueIsFramed(o, items, c, g + t);
        BlanksIgnored(g, t);
      case Word(w) =>
        assert g[0] in g && forall c :: c in g[1..] ==> c in g;
        assert w + g + t == w + [g[0]] + (g[1..] + t);
        WordIsReported(w, g[0], g[1..] + t);
        BlanksIgnored(g[1..], t);
    }
  }

  lemma FeedFrom(s: State, t: Text, i: nat)
    requires i < |t|
    ensures var o := Step(s, t[i]); var r := Feed(o.s, t[i + 1..]); Feed(s, t[i..]) == Out(r.s, o.events + r.events)
  {
    hide Step;
    assert t[i..][1..] == t[i + 1..];
  }

  lemma FeedEnds(s: State, t: Text)
    ensures t[0..] == t && Feed(s, t[|t|..]) == Out(s, [])
  {
  }

  // ------------------------------------------------------- the connection, in place

  class Connection {
    var buf: array?<char>
    var len: nat
    var depth: int
    var inString: bool
    var escape: bool

    ghost predicate Valid()
      reads this, if buf == null then {} else {buf}
    {
      if buf == null then len == 0 else len < buf.Length
    }

    ghost function Abs(): State
      requires Valid()
      reads this, if buf == null then {} else {buf}
    {
      State(if buf == null then [] else buf[..len], depth, inString, escape)
    }

    constructor ()
      ensures Valid() && Abs() == Reset() && buf == null
    {
      buf, len, depth, inString, escape := null, 0, 0, false, false;
    }

    method FrameReset()
      modifies this
      requires Valid()
      ensures Valid() && Abs() == Reset() && buf == old(buf)
    {
      len, depth, inString, escape := 0, 0, false, false;
    }

    /** One character more, doubling the buffer when it is full. */
    method FrameAppend(ch: char)
      requires Valid()
      modifies this, if buf == null then {} else {buf}
      ensures Valid() && Abs() == old(Abs()).(buf := old(Abs()).buf + [ch])
      ensures buf == old(buf) || fresh(buf)
    {
      if buf == null || len + 1 >= buf.Length {
        var cap := if buf == null then 1024 else buf.Length * 2;
        var bigger := new char[cap](i requires 0 <= i reads this, if buf == null then {} else {buf} =>
          if buf != null && i < len && i < buf.Length then buf[i] else '\0');
        assert buf != null ==> bigger[..len] == buf[..len];
        buf := bigger;
      }
      ghost var before := buf[..len];
      buf[len] := ch;
      len := len + 1;
      assert buf[..len] == before + [ch];
    }

    method Feed1(ch: char) returns (events: seq<Event>)
      requires Valid() && Inv(Abs())
      modifies this, if buf == null then {} else {buf}
      ensures Valid() && Abs() == Step(old(Abs()), ch).s && events == Step(old(Abs()), ch).events
      ensures buf == old(buf) || fresh(buf)
    {
      var space := Space(ch);
      if len == 0 && space { return []; }
      if len > 0 && depth == 0 && buf[0] != '{' && buf[0] != '[' {
        if !space {
          if len < 64 { FrameAppend(ch); }
          return [];
        }
        events := [BadWord(buf[..len])];
        FrameReset();
        return;
      }
      if len >= MAX_INPUT {
        FrameReset();
        return [TooLarge];
      }
      FrameAppend(ch);
      events := TrackChar(ch);
    }

    method TrackChar(ch: char) returns (events: seq<Event>)
      requires Valid() && buf != null && (escape ==> inString)
      modifies this
      ensures Valid() && buf == old(buf)
      ensures Abs() == Track(old(Abs()), ch).s && events == Track(old(Abs()), ch).events
    {
      events := [];
      if inString {
        if escape { escape := false; }
        else if ch == '\\' { escape := true; }
        else if ch == '"' { inString := false; }
      } else if ch == '"' {
        inString := true;
      } else if ch == '{' || ch == '[' {
        depth := depth + 1;
      } else if ch == '}' || ch == ']' {
        depth := depth - 1;
        if depth <= 0 {
          events := [Frame(buf[..len])];
          FrameReset();
        }
      }
    }

    /** One read. */
    method FeedRead(data: Text) returns (events: seq<Event>)
      requires Valid() && Inv(Abs())
      modifies this, if buf == null then {} else {buf}
      ensures Valid() && Inv(Abs())
      ensures Abs() == Feed(old(Abs()), data).s && events == Feed(old(Abs()), data).events
      ensures buf == old(buf) || fresh(buf)
    {
      hide Step, Inv, Feed;
      events := [];
      ghost var s0 := Abs();
      FeedEnds(s0, data);
      for i := 0 to |data|
        invariant Valid() && Inv(Abs()) && (buf == old(buf) || fresh(buf))
        invariant Feed(s0, data).s == Feed(Abs(), data[i..]).s
        invariant Feed(s0, data).events == events + Feed(Abs(), data[i..]).events
      {
        ghost var s := Abs();
        FeedFrom(s, data, i);
        InvStep(s, data[i]);
        var out := Feed1(data[i]);
        events := events + out;
      }
      FeedEnds(Abs(), data);
    }
  }

  // ---------------------------------------------------------------------- the limits

  /** White space is skipped between tokens: blank, tab, line feed, vertical tab, form feed, carriage return. */
  lemma Skipped(c: char)
    ensures Step(Reset(), c) == Out(Reset(), []) <==> c == ' ' || c == '\t' || c == '\n' || c == 11 as char || c == 12 as char || c == '\r'
  {
  }

  /** A value may be 1048576 characters long; the next one is not taken any more, and the value is given up. */
  lemma InputLimit(s: State, c: char)
    requires Inv(s) && s.depth > 0
    ensures |s.buf| == 1048576 <==> Step(s, c) == Out(Reset(), [TooLarge])
  {
  }
}
