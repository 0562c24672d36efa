/** `http_parser_parse_url` and `http_parse_host`: the ranges of a URL's components. */
module HttpUrl {
  import opened Options
  import opened HttpTypes

  datatype UrlField = SCHEMA | HOST | PORT | PATH | QUERY | FRAGMENT | USERINFO

  datatype Range = Range(off: nat, len: nat)

  datatype HostState =
    | HostDead | UserinfoStart | Userinfo | HostStart | HostV6Start | HostName | HostV6 | HostV6End
    | HostV6ZoneStart | HostV6Zone | HostPortStart | HostPort

  /** Truncation to `uint16_t`. */
  function W16(n: nat): (r: nat)
    ensures r <= n && (n <= 0xffff ==> r == n)
  {
    n % 0x1_0000
  }

  /** `http_parse_host_char`. */
  function ParseHostChar(s: HostState, c: char): HostState {
    match s
    case Userinfo | UserinfoStart =>
      if c == '@' then HostStart else if IsUserinfoChar(c) then Userinfo else HostDead
    case HostStart => if c == '[' then HostV6Start else if IsHostChar(c) then HostName else HostDead
    case HostName => if IsHostChar(c) then HostName else if c == ':' then HostPortStart else HostDead
    case HostV6End => if c == ':' then HostPortStart else HostDead
    case HostV6 =>
      if c == ']' then HostV6End else if IsV6Char(c) then HostV6 else if c == '%' then HostV6ZoneStart else HostDead
    case HostV6Start => if IsV6Char(c) then HostV6 else HostDead
    case HostV6Zone => if c == ']' then HostV6End else if IsZoneChar(c) then HostV6Zone else HostDead
    case HostV6ZoneStart => if IsZoneChar(c) then HostV6Zone else HostDead
    case HostPort | HostPortStart => if IsNum(c) then HostPort else HostDead
    case HostDead => HostDead
  }

  predicate IsV6Char(c: char) { IsHex(c) || c == ':' || c == '.' }

  predicate IsZoneChar(c: char) { IsAlphaNum(c) || c == '%' || c == '.' || c == '-' || c == '_' || c == '~' }

  /** The states a host part may end in. */
  predicate HostAccepts(s: HostState) { s == HostName || s == HostV6End || s == HostPort }

  // ---------- the scans as folds ----------

  /** The URL loop's variables: state, ranges set so far, the field in progress and whether an `@` was seen. */
  datatype Scan = Scan(s: State, fields: map<UrlField, Range>, last: Option<UrlField>, at: bool)

  function FieldOf(s: State): Option<UrlField> {
    match s
    case ReqSchema => Some(SCHEMA)
    case ReqServer | ReqServerWithAt => Some(HOST)
    case ReqPath => Some(PATH)
    case ReqQueryString => Some(QUERY)
    case ReqFragment => Some(FRAGMENT)
    case _ => None
  }

  /** The ranges after byte `pos` belongs to field `uf`. */
  function Mark(fields: map<UrlField, Range>, last: Option<UrlField>, uf: UrlField, pos: nat): map<UrlField, Range> {
    if last == Some(uf) && uf in fields
    then fields[uf := Range(fields[uf].off, W16(fields[uf].len + 1))]
    else fields[uf := Range(W16(pos), 1)]
  }

  function ScanStep(sc: Scan, pos: nat, c: char): Scan {
    var s := ParseUrlChar(sc.s, c);
    match FieldOf(s)
    case None => sc.(s := s)
    case Some(uf) => Scan(s, Mark(sc.fields, sc.last, uf, pos), Some(uf), sc.at || s == ReqServerWithAt)
  }

  function ScanFrom(sc: Scan, pos: nat, bs: seq<char>): Scan {
    if bs == [] then sc else ScanStep(ScanFrom(sc, pos, bs[..|bs| - 1]), pos + |bs| - 1, bs[|bs| - 1])
  }

  function ScanStart(isConnect: bool): Scan {
    Scan(if isConnect then ReqServerStart else ReqSpacesBeforeUrl, map[], None, false)
  }

  datatype HostScan = HostScan(s: HostState, host: Range, port: Option<Range>, user: Option<Range>)

  function Longer(r: Range): Range { Range(r.off, W16(r.len + 1)) }

  /** One byte of the host loop. */
  function HostStep(h: HostScan, pos: nat, c: char): HostScan {
    var s := ParseHostChar(h.s, c);
    match s
    case HostName | HostV6 =>
      h.(s := s, host := Longer(if h.s != s then Range(W16(pos), h.host.len) else h.host))
    case HostV6ZoneStart | HostV6Zone => h.(s := s, host := Longer(h.host))
    case HostPort =>
      h.(s := s, port := Some(Longer(if h.s != s || h.port.None? then Range(W16(pos), 0) else h.port.value)))
    case Userinfo =>
      h.(s := s, user := Some(Longer(if h.s != s || h.user.None? then Range(W16(pos), 0) else h.user.value)))
    case _ => h.(s := s)
  }

  function HostFrom(h: HostScan, pos: nat, bs: seq<char>): HostScan {
    if bs == [] then h else HostStep(HostFrom(h, pos, bs[..|bs| - 1]), pos + |bs| - 1, bs[|bs| - 1])
  }

  function HostStarted(at: bool, off: nat): HostScan {
    HostScan(if at then UserinfoStart else HostStart, Range(off, 0), None, None)
  }

  /** The result of a parse: the ranges of the fields that are set, and the port. */
  datatype Parts = Parts(fields: map<UrlField, Range>, port: nat)

  /** The ranges with the host part split up. */
  function SplitHost(fields: map<UrlField, Range>, h: HostScan): map<UrlField, Range> {
    var f1 := fields[HOST := h.host];
    var f2 := if h.port.Some? then f1[PORT := h.port.value] else f1;
    if h.user.Some? then f2[USERINFO := h.user.value] else f2
  }

  predicate InBounds(r: Range, n: nat) { r.off + r.len <= n }

  function RangeOf(buf: seq<char>, r: Range): seq<char>
    requires InBounds(r, |buf|)
  {
    buf[r.off..r.off + r.len]
  }

  /** A `char` operand is signed. */
  function SignedByte(c: char): int { if c as int < 128 then c as int else c as int - 256 }

  /** The port loop, in `unsigned long` arithmetic, leaving early above 0xffff. */
  function PortValue(ds: seq<char>): Option<nat> {
    if ds == [] then Some(0)
    else
      match PortValue(ds[..|ds| - 1])
      case None => None
      case Some(v) =>
        var w := (v * 10 + SignedByte(ds[|ds| - 1]) - '0' as int) % (ULLONG_MAX + 1);
        if w > 0xffff then None else Some(w)
  }

  /** What the whole parse returns; None when the URL is refused. */
  function ParseResult(buf: seq<char>, isConnect: bool): (r: Option<Parts>)
    ensures r.Some? ==> forall f :: f in r.value.fields ==> InBounds(r.value.fields[f], |buf|)
  {
    var sc := ScanFrom(ScanStart(isConnect), 0, buf);
    if buf == [] || sc.s == Dead || (SCHEMA in sc.fields && HOST !in sc.fields) then None
    else
      match HostResult(buf, sc, isConnect)
      case None => None
      case Some(fields) =>
        if isConnect && fields.Keys != {HOST, PORT} then None
        else if PORT !in fields then Some(Parts(fields, 0))
        else
          match PortValue(RangeOf(buf, fields[PORT]))
          case None => None
          case Some(v) => Some(Parts(fields, v))
  }

  /** The host part of the parse. */
  function HostResult(buf: seq<char>, sc: Scan, isConnect: bool): (r: Option<map<UrlField, Range>>)
    requires sc == ScanFrom(ScanStart(isConnect), 0, buf)
    ensures r.Some? ==> forall f :: f in r.value ==> InBounds(r.value[f], |buf|)
  {
    ScanInBounds(ScanStart(isConnect), 0, buf);
    if HOST !in sc.fields then Some(sc.fields)
    else
      var r := sc.fields[HOST];
      var h := HostFrom(HostStarted(sc.at, r.off), r.off, RangeOf(buf, r));
      HostInBounds(HostStarted(sc.at, r.off), r.off, RangeOf(buf, r));
      if HostAccepts(h.s) then Some(SplitHost(sc.fields, h)) else None
  }

  /** However long the URL, the truncated ranges stay inside it. */
  lemma {:induction false} ScanInBounds(sc: Scan, pos: nat, bs: seq<char>)
    requires forall f :: f in sc.fields ==> InBounds(sc.fields[f], pos)
    ensures forall f :: f in ScanFrom(sc, pos, bs).fields ==> InBounds(ScanFrom(sc, pos, bs).fields[f], pos + |bs|)
  {
    hide ParseUrlChar;
    if bs != [] { ScanInBounds(sc, pos, bs[..|bs| - 1]); }
  }

  predicate HostBounded(h: HostScan, n: nat) {
    && InBounds(h.host, n)
    && (h.s in {UserinfoStart, Userinfo, HostStart, HostV6Start} ==> h.host.len == 0)
    && (h.port.Some? ==> InBounds(h.port.value, n))
    && (h.user.Some? ==> InBounds(h.user.value, n))
  }

  lemma HostStepBounded(h: HostScan, pos: nat, c: char)
    requires HostBounded(h, pos)
    ensures HostBounded(HostStep(h, pos, c), pos + 1)
  {
    hide IsUserinfoChar, IsHostChar, IsV6Char, IsZoneChar;
  }

  lemma {:induction false} HostInBounds(h: HostScan, pos: nat, bs: seq<char>)
    requires HostBounded(h, pos)
    ensures HostBounded(HostFrom(h, pos, bs), pos + |bs|)
  {
    if bs != [] {
      hide ParseHostChar;
      HostInBounds(h, pos, bs[..|bs| - 1]);
      HostStepBounded(HostFrom(h, pos, bs[..|bs| - 1]), pos + |bs| - 1, bs[|bs| - 1]);
    }
  }

  /** The fields the URL loop has set, from which the host loop's fields are still missing. */
  lemma {:induction false} ScanSets(isConnect: bool, bs: seq<char>)
    ensures var sc := ScanFrom(ScanStart(isConnect), 0, bs);
            && PORT !in sc.fields && USERINFO !in sc.fields
            && (sc.last.Some? ==> sc.last.value in sc.fields)
  {
    hide ParseUrlChar;
    if bs != [] { ScanSets(isConnect, bs[..|bs| - 1]); }
  }

  // ---------- the imperative parser ----------

  /** The ranges of the fields in `set`. */
  function Restrict(fieldSet: set<UrlField>, data: map<UrlField, Range>): map<UrlField, Range> {
    map f | f in fieldSet && f in data :: data[f]
  }

  lemma RestrictUpdate(fieldSet: set<UrlField>, data: map<UrlField, Range>, f: UrlField, r: Range)
    ensures Restrict(fieldSet + {f}, data[f := r]) == Restrict(fieldSet, data)[f := r]
  {}

  /** Changing one of the host loop's fields changes its range. */
  lemma SplitHostUpdate(base: map<UrlField, Range>, h: HostScan, r: Range)
    ensures SplitHost(base, h)[HOST := r] == SplitHost(base, h.(host := r))
    ensures SplitHost(base, h)[PORT := r] == SplitHost(base, h.(port := Some(r)))
    ensures SplitHost(base, h)[USERINFO := r] == SplitHost(base, h.(user := Some(r)))
  {
    assert SplitHost(base, h)[HOST := r] == SplitHost(base, h.(host := r));
    assert SplitHost(base, h)[PORT := r] == SplitHost(base, h.(port := Some(r)));
    assert SplitHost(base, h)[USERINFO := r] == SplitHost(base, h.(user := Some(r)));
  }

  lemma SplitHostAt(base: map<UrlField, Range>, h: HostScan)
    ensures HOST in SplitHost(base, h) && SplitHost(base, h)[HOST] == h.host
    ensures h.port.Some? ==> PORT in SplitHost(base, h) && SplitHost(base, h)[PORT] == h.port.value
    ensures h.user.Some? ==> USERINFO in SplitHost(base, h) && SplitHost(base, h)[USERINFO] == h.user.value
  {}

  lemma SplitHostIgnores(base: map<UrlField, Range>, h: HostScan, s: HostState)
    ensures SplitHost(base, h.(s := s)) == SplitHost(base, h)
  {}

  lemma ScanPrefix(sc: Scan, buf: seq<char>, p: nat)
    requires p <= |buf|
    ensures p < |buf| ==> ScanFrom(sc, 0, buf[..p + 1]) == ScanStep(ScanFrom(sc, 0, buf[..p]), p, buf[p])
    ensures ScanFrom(sc, 0, buf[..0]) == sc
  {
    hide ScanStep;
    if p < |buf| { assert buf[..p + 1][..p] == buf[..p]; }
  }

  class ParsedUrl {
    var fieldSet: set<UrlField>
    var port: nat
    var fieldData: map<UrlField, Range>

    /** Every field that is set has a range. */
    ghost predicate Valid()
      reads this
    {
      fieldSet <= fieldData.Keys
    }

    /** The ranges of the fields that are set. */
    ghost function Fields(): (m: map<UrlField, Range>)
      requires Valid()
      reads this
      ensures m.Keys == fieldSet && forall f :: f in fieldSet ==> m[f] == fieldData[f]
    {
      Restrict(fieldSet, fieldData)
    }

    /** `http_parser_url_init`. */
    constructor ()
      ensures Valid() && fieldSet == {} && port == 0
    {
      fieldSet, port, fieldData := {}, 0, map[];
    }

    /** Sets field `f` to the `len` bytes from `off`. */
    method Begin(f: UrlField, off: nat, len: nat)
      requires Valid()
      modifies this`fieldSet, this`fieldData
      ensures Valid() && fieldSet == old(fieldSet) + {f}
      ensures Fields() == old(Fields())[f := Range(W16(off), len)]
    {
      RestrictUpdate(fieldSet, fieldData, f, Range(W16(off), len));
      fieldData, fieldSet := fieldData[f := Range(W16(off), len)], fieldSet + {f};
    }

    /** `field_data[f].len++`. */
    method Extend(f: UrlField)
      requires Valid() && f in fieldSet
      modifies this`fieldData
      ensures Valid() && Fields() == old(Fields())[f := Longer(old(Fields())[f])]
    {
      RestrictUpdate(fieldSet, fieldData, f, Longer(fieldData[f]));
      assert fieldSet + {f} == fieldSet;
      fieldData := fieldData[f := Longer(fieldData[f])];
    }

    /** The ranges of the host loop's own fields, as its fold has them. */
    ghost predicate Holds(h: HostScan, base: map<UrlField, Range>)
      requires Valid()
      reads this
    {
      && HOST in base && PORT !in base && USERINFO !in base
      && (h.s == HostPort ==> h.port.Some?) && (h.s == Userinfo ==> h.user.Some?)
      && Fields() == SplitHost(base, h)
    }

    /** A byte of the host. */
    method HostByte(p: nat, begins: bool, ghost h: HostScan, ghost base: map<UrlField, Range>)
      requires Valid() && Holds(h, base)
      modifies this`fieldSet, this`fieldData
      ensures Valid()
      ensures var h1 := if begins then h.(host := Range(W16(p), h.host.len)) else h;
              Fields() == SplitHost(base, h1.(host := Longer(h1.host)))
    {
      hide Restrict, SplitHost;
      SplitHostAt(base, h);
      assert HOST in Fields() && fieldData[HOST] == h.host;
      if begins { Begin(HOST, p, fieldData[HOST].len); }
      ghost var h1 := if begins then h.(host := Range(W16(p), h.host.len)) else h;
      SplitHostUpdate(base, h, Range(W16(p), h.host.len));
      SplitHostUpdate(base, h1, Longer(h1.host));
      SplitHostAt(base, h1);
      Extend(HOST);
    }

    /** A byte of the port. */
    method PortByte(p: nat, begins: bool, ghost h: HostScan, ghost base: map<UrlField, Range>)
      requires Valid() && Holds(h, base) && (!begins ==> h.port.Some?)
      modifies this`fieldSet, this`fieldData
      ensures Valid()
      ensures var r := if begins then Range(W16(p), 0) else h.port.value;
              Fields() == SplitHost(base, h.(port := Some(Longer(r))))
    {
      hide Restrict, SplitHost;
      if begins { Begin(PORT, p, 0); }
      ghost var h1 := if begins then h.(port := Some(Range(W16(p), 0))) else h;
      SplitHostUpdate(base, h, Range(W16(p), 0));
      SplitHostUpdate(base, h1, Longer(h1.port.value));
      SplitHostAt(base, h1);
      Extend(PORT);
    }

    /** A byte of the userinfo. */
    method UserinfoByte(p: nat, begins: bool, ghost h: HostScan, ghost base: map<UrlField, Range>)
      requires Valid() && Holds(h, base) && (!begins ==> h.user.Some?)
      modifies this`fieldSet, this`fieldData
      ensures Valid()
      ensures var r := if begins then Range(W16(p), 0) else h.user.value;
              Fields() == SplitHost(base, h.(user := Some(Longer(r))))
    {
      hide Restrict, SplitHost;
      if begins { Begin(USERINFO, p, 0); }
      ghost var h1 := if begins then h.(user := Some(Range(W16(p), 0))) else h;
      SplitHostUpdate(base, h, Range(W16(p), 0));
      SplitHostUpdate(base, h1, Longer(h1.user.value));
      SplitHostAt(base, h1);
      Extend(USERINFO);
    }

    /** The body of the host loop's `switch`. */
    method HostUpdate(next: HostState, p: nat, ch: char, s: HostState, ghost h: HostScan,
                      ghost base: map<UrlField, Range>)
      requires Valid() && Holds(h, base) && s == h.s && next == ParseHostChar(s, ch) && next != HostDead
      modifies this`fieldSet, this`fieldData
      ensures Valid() && Holds(HostStep(h, p, ch), base)
    {
      hide ParseHostChar, Restrict, SplitHost;
      SplitHostIgnores(base, HostStep(h, p, ch), s);
      if next == HostName || next == HostV6 {
        HostByte(p, s != next, h, base);
      } else if next == HostV6ZoneStart || next == HostV6Zone {
        HostByte(p, false, h, base);
      } else if next == HostPort {
        PortByte(p, s != HostPort, h, base);
      } else if next == Userinfo {
        UserinfoByte(p, s != Userinfo, h, base);
      }
    }

    /** `http_parse_host`: splits the host field; the result is true on failure. */
    method ParseHost(buf: seq<char>, foundAt: bool) returns (failed: bool)
      requires Valid() && HOST in fieldSet && PORT !in fieldSet && USERINFO !in fieldSet
      requires InBounds(fieldData[HOST], |buf|)
      modifies this`fieldSet, this`fieldData
      ensures Valid()
      ensures var r := old(fieldData[HOST]);
              var h := HostFrom(HostStarted(foundAt, r.off), r.off, RangeOf(buf, r));
              && failed == !HostAccepts(h.s)
              && (!failed ==> Fields() == SplitHost(old(Fields()), h))
    {
      hide ParseHostChar, HostStep, SplitHost, Restrict;
      ghost var base := Fields();
      ghost var r := fieldData[HOST];
      ghost var host := RangeOf(buf, r);
      ghost var h := HostStarted(foundAt, r.off);
      var buflen := fieldData[HOST].off + fieldData[HOST].len;
      var p := fieldData[HOST].off;
      ClearHost();
      var s := if foundAt then UserinfoStart else HostStart;
      while p < buflen
        invariant r.off <= p <= buflen && Valid()
        invariant h == HostFrom(HostStarted(foundAt, r.off), r.off, host[..p - r.off])
        invariant s == h.s != HostDead && Holds(h, base)
      {
        assert host[..p + 1 - r.off][..p - r.off] == host[..p - r.off];
        var next := ParseHostChar(s, buf[p]);
        HostStepState(h, p, buf[p]);
        if next == HostDead {
          HostDeadStays(HostStarted(foundAt, r.off), r.off, host, p + 1 - r.off);
          return true;
        }
        HostUpdate(next, p, buf[p], s, h, base);
        h := HostStep(h, p, buf[p]);
        s, p := next, p + 1;
      }
      assert host[..p - r.off] == host;
      failed := !HostAccepts(s);
    }

    /** `field_data[UF_HOST].len = 0`. */
    method ClearHost()
      requires Valid() && HOST in fieldSet && PORT !in fieldSet && USERINFO !in fieldSet
      modifies this`fieldData
      ensures Valid()
      ensures forall at :: Holds(HostStarted(at, old(fieldData[HOST].off)), old(Fields()))
    {
      RestrictUpdate(fieldSet, fieldData, HOST, Range(fieldData[HOST].off, 0));
      assert fieldSet + {HOST} == fieldSet;
      fieldData := fieldData[HOST := Range(fieldData[HOST].off, 0)];
    }

    /** The byte at `p` belongs to field `uf`. */
    method Touch(uf: UrlField, lastField: Option<UrlField>, p: nat)
      requires Valid() && (lastField.Some? ==> lastField.value in fieldSet)
      modifies this`fieldSet, this`fieldData
      ensures Valid() && Fields() == Mark(old(Fields()), lastField, uf, p)
    {
      if Some(uf) == lastField {
        Extend(uf);
      } else {
        Begin(uf, p, 1);
      }
    }

    /** The URL loop. */
    method ScanFields(buf: seq<char>, isConnect: bool) returns (dead: bool, foundAt: bool)
      requires Valid() && fieldSet == {}
      modifies this`fieldSet, this`fieldData
      ensures Valid()
      ensures var sc := ScanFrom(ScanStart(isConnect), 0, buf);
              && dead == (sc.s == Dead)
              && (!dead ==> foundAt == sc.at && Fields() == sc.fields)
    {
      hide ParseUrlChar, Restrict, Mark, ScanFrom;
      ScanPrefix(ScanStart(isConnect), buf, 0);
      var s := if isConnect then ReqServerStart else ReqSpacesBeforeUrl;
      var lastField: Option<UrlField> := None;
      foundAt := false;
      var p := 0;
      ghost var sc := ScanStart(isConnect);
      while p < |buf|
        invariant p <= |buf| && Valid()
        invariant sc == ScanFrom(ScanStart(isConnect), 0, buf[..p])
        invariant sc.s == s && sc.at == foundAt && sc.last == lastField && Fields() == sc.fields && sc.s != Dead
      {
        ScanPrefix(ScanStart(isConnect), buf, p);
        ScanSets(isConnect, buf[..p]);
        sc := ScanStep(sc, p, buf[p]);
        UrlStates(s, buf[p]);
        s := ParseUrlChar(s, buf[p]);
        if s == Dead {
          ScanDeadStays(ScanStart(isConnect), 0, buf, p + 1);
          return true, foundAt;
        }
        if FieldOf(s).Some? {
          var uf := FieldOf(s).value;
          if s == ReqServerWithAt { foundAt := true; }
          Touch(uf, lastField, p);
          lastField := Some(uf);
        }
        p := p + 1;
      }
      assert buf[..p] == buf;
      dead := false;
    }

    /** The loop that converts the port; the result is true on failure. */
    method ConvertPort(buf: seq<char>) returns (failed: bool)
      requires Valid() && PORT in fieldSet && InBounds(fieldData[PORT], |buf|)
      modifies this`port
      ensures var v := PortValue(RangeOf(buf, fieldData[PORT])); failed == v.None? && (!failed ==> v == Some(port))
    {
      var off, len := fieldData[PORT].off, fieldData[PORT].len;
      assert off + len <= |buf|; // "Port number overflow"
      ghost var digits := RangeOf(buf, fieldData[PORT]);
      var p, v := off, 0;
      while p < off + len
        invariant off <= p <= off + len
        invariant PortValue(digits[..p - off]) == Some(v) && v <= 0xffff
      {
        assert digits[..p + 1 - off][..p - off] == digits[..p - off];
        v := (v * 10 + SignedByte(buf[p]) - '0' as int) % (ULLONG_MAX + 1);
        if v > 0xffff {
          PortStops(digits, p + 1 - off);
          return true;
        }
        p := p + 1;
      }
      assert digits[..p - off] == digits;
      port := W16(v);
      return false;
    }

    /** `http_parser_parse_url`; the result is true on failure. */
    method Parse(buf: seq<char>, isConnect: bool) returns (failed: bool)
      requires Valid()
      modifies this
      ensures Valid()
      ensures failed == ParseResult(buf, isConnect).None?
      ensures !failed ==> Parts(Fields(), port) == ParseResult(buf, isConnect).value
    {
      hide ScanFrom, ScanStart, HostFrom, Restrict, SplitHost, PortValue;
      if |buf| == 0 { return true; }
      port, fieldSet := 0, {};
      var dead, foundAt := ScanFields(buf, isConnect);
      ghost var sc := ScanFrom(ScanStart(isConnect), 0, buf);
      if dead { return true; }
      if SCHEMA in fieldSet && HOST !in fieldSet { return true; }
      if HOST in fieldSet {
        ScanInBounds0(buf, isConnect);
        ScanSets(isConnect, buf);
        var bad := ParseHost(buf, foundAt);
        if bad { return true; }
      }
      assert HostResult(buf, sc, isConnect) == Some(Fields());
      if isConnect && fieldSet != {HOST, PORT} { return true; }
      if PORT in fieldSet {
        failed := ConvertPort(buf);
      } else {
        failed := false;
      }
    }
  }

  lemma ScanInBounds0(buf: seq<char>, isConnect: bool)
    ensures var sc := ScanFrom(ScanStart(isConnect), 0, buf);
            forall f :: f in sc.fields ==> InBounds(sc.fields[f], |buf|)
  {
    ScanInBounds(ScanStart(isConnect), 0, buf);
  }

  lemma HostStepState(h: HostScan, pos: nat, c: char)
    ensures HostStep(h, pos, c).s == ParseHostChar(h.s, c)
  {
    hide ParseHostChar;
  }

  /** The states `parse_url_char` can return: no other reaches the URL loop's default case. */
  lemma UrlStates(s: State, c: char)
    ensures var t := ParseUrlChar(s, c);
            t == Dead || FieldOf(t).Some? || t == ReqSchemaSlash || t == ReqSchemaSlashSlash || t == ReqServerStart
            || t == ReqQueryStringStart || t == ReqFragmentStart
  {}

  lemma {:induction false} ScanDeadStays(sc: Scan, pos: nat, bs: seq<char>, k: nat)
    requires k <= |bs| && ScanFrom(sc, pos, bs[..k]).s == Dead
    ensures ScanFrom(sc, pos, bs).s == Dead
  {
    if k == |bs| {
      assert bs[..k] == bs;
    } else {
      assert bs[..|bs| - 1][..k] == bs[..k];
      ScanDeadStays(sc, pos, bs[..|bs| - 1], k);
    }
  }

  lemma {:induction false} HostDeadStays(h: HostScan, pos: nat, bs: seq<char>, k: nat)
    requires k <= |bs| && HostFrom(h, pos, bs[..k]).s == HostDead
    ensures HostFrom(h, pos, bs).s == HostDead
  {
    if k == |bs| {
      assert bs[..k] == bs;
    } else {
      assert bs[..|bs| - 1][..k] == bs[..k];
      HostDeadStays(h, pos, bs[..|bs| - 1], k);
    }
  }

  lemma {:induction false} PortStops(ds: seq<char>, k: nat)
    requires k <= |ds| && PortValue(ds[..k]) == None
    ensures PortValue(ds) == None
  {
    if k == |ds| {
      assert ds[..k] == ds;
    } else {
      assert ds[..|ds| - 1][..k] == ds[..k];
      PortStops(ds[..|ds| - 1], k);
    }
  }
}
