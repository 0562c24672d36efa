/** What URL parsing promises: it inverts composition, and what it accepts is well ordered. */
module HttpUrlLaws {
  import opened Options
  import opened HttpTypes
  import opened HttpFields
  import opened HttpUrl

  // ---------- accepted URLs ----------

  /** The order in which the fields appear in a URL. */
  function Order(f: UrlField): nat {
    match f
    case SCHEMA => 0
    case USERINFO => 1
    case HOST => 2
    case PORT => 3
    case PATH => 4
    case QUERY => 5
    case FRAGMENT => 6
  }

  /** If `f` comes before `g`, its range ends before that of `g` starts. */
  predicate Precedes(fields: map<UrlField, Range>, f: UrlField, g: UrlField) {
    f in fields && g in fields && Order(f) < Order(g) ==> InBounds(fields[f], fields[g].off)
  }

  ghost predicate Ordered(fields: map<UrlField, Range>) { forall f, g :: Precedes(fields, f, g) }

  predicate Within(fields: map<UrlField, Range>, n: nat) {
    forall f :: f in fields ==> 0 < fields[f].len && InBounds(fields[f], n)
  }

  /** The last field that can be set before state `s`. */
  function Reach(s: State): int {
    match s
    case ReqSchema | ReqSchemaSlash | ReqSchemaSlashSlash | ReqServerStart => 0
    case ReqServer | ReqServerWithAt => 2
    case ReqPath | ReqQueryStringStart => 4
    case ReqQueryString | ReqFragmentStart => 5
    case ReqFragment => 6
    case _ => -1
  }

  ghost predicate ScanGood(sc: Scan, pos: nat) {
    && Ordered(sc.fields) && Within(sc.fields, pos)
    && (forall f :: f in sc.fields ==> Order(f) <= Reach(sc.s) && f != PORT && f != USERINFO)
    && (sc.last.Some? ==> sc.last.value in sc.fields)
    && (FieldOf(sc.s).Some? ==>
          sc.last == FieldOf(sc.s) && sc.fields[sc.last.value].off + sc.fields[sc.last.value].len == pos)
  }

  /** The new range of field `uf`, which nothing follows yet, keeps the fields ordered. */
  lemma MarkOrdered(fields: map<UrlField, Range>, pos: nat, uf: UrlField, r: Range)
    requires Ordered(fields) && Within(fields, pos)
    requires forall f :: f in fields ==> Order(f) <= Order(uf)
    requires if uf in fields then r.off == fields[uf].off else r.off == pos
    requires 0 < r.len && InBounds(r, pos + 1)
    ensures Ordered(fields[uf := r]) && Within(fields[uf := r], pos + 1)
  {
    var m := fields[uf := r];
    forall f, g ensures Precedes(m, f, g) {
      assert Precedes(fields, f, g);
    }
  }

  /** The field of a state is the last one it can reach; a field is only continued from its own state. */
  lemma StepReach(s: State, c: char)
    requires ParseUrlChar(s, c) != Dead
    ensures var t := ParseUrlChar(s, c);
            && Reach(s) <= Reach(t)
            && (FieldOf(t).Some? ==>
                  && Order(FieldOf(t).value) == Reach(t) && FieldOf(t).value != PORT && FieldOf(t).value != USERINFO
                  && (FieldOf(s) == FieldOf(t) || Reach(s) < Reach(t)))
  {
    hide IsUrlChar, IsAlpha, IsUserinfoChar;
  }

  // ---------- the loop without truncation ----------

  /** `Mark` with offsets and lengths of any size. */
  function TrueMark(fields: map<UrlField, Range>, last: Option<UrlField>, uf: UrlField, pos: nat)
    : map<UrlField, Range>
  {
    if last == Some(uf) && uf in fields
    then fields[uf := Range(fields[uf].off, fields[uf].len + 1)]
    else fields[uf := Range(pos, 1)]
  }

  function TrueStep(sc: Scan, pos: nat, c: char): Scan {
    var s := ParseUrlChar(sc.s, c);
    match FieldOf(s)
    case None => sc.(s := s)
    case Some(uf) => Scan(s, TrueMark(sc.fields, sc.last, uf, pos), Some(uf), sc.at || s == ReqServerWithAt)
  }

  /** The URL loop with the true ranges, however long the URL. */
  function TrueFrom(sc: Scan, pos: nat, bs: seq<char>): Scan {
    if bs == [] then sc else TrueStep(TrueFrom(sc, pos, bs[..|bs| - 1]), pos + |bs| - 1, bs[|bs| - 1])
  }

  function Cut(r: Range): Range { Range(W16(r.off), W16(r.len)) }

  /** The ranges as 16-bit numbers hold them. */
  function CutAll(fields: map<UrlField, Range>): map<UrlField, Range> { map f | f in fields :: Cut(fields[f]) }

  predicate Fits16(fields: map<UrlField, Range>) {
    forall f :: f in fields ==> fields[f].off <= 0xffff && fields[f].len <= 0xffff
  }

  lemma CutLonger(n: nat)
    ensures W16(W16(n) + 1) == W16(n + 1)
  {}

  lemma MarkCuts(fields: map<UrlField, Range>, last: Option<UrlField>, uf: UrlField, pos: nat)
    ensures Mark(CutAll(fields), last, uf, pos) == CutAll(TrueMark(fields, last, uf, pos))
  {
    if uf in fields { CutLonger(fields[uf].len); }
  }

  lemma StepCuts(sc: Scan, pos: nat, c: char)
    ensures ScanStep(sc.(fields := CutAll(sc.fields)), pos, c) ==
            var t := TrueStep(sc, pos, c); t.(fields := CutAll(t.fields))
  {
    hide ParseUrlChar, Mark, TrueMark, CutAll;
    var s := ParseUrlChar(sc.s, c);
    if FieldOf(s).Some? { MarkCuts(sc.fields, sc.last, FieldOf(s).value, pos); }
  }

  /** The URL loop finds the true ranges, cut to 16 bits. */
  lemma {:induction false} ScanCuts(sc: Scan, pos: nat, bs: seq<char>)
    ensures ScanFrom(sc.(fields := CutAll(sc.fields)), pos, bs) ==
            var t := TrueFrom(sc, pos, bs); t.(fields := CutAll(t.fields))
  {
    hide ScanStep, TrueStep;
    if bs != [] {
      var init := bs[..|bs| - 1];
      ScanCuts(sc, pos, init);
      StepCuts(TrueFrom(sc, pos, init), pos + |init|, bs[|init|]);
    }
  }

  lemma CutFits(fields: map<UrlField, Range>)
    ensures CutAll(fields) == fields <==> Fits16(fields)
  {
    if !Fits16(fields) {
      var f :| f in fields && !(fields[f].off <= 0xffff && fields[f].len <= 0xffff);
      assert CutAll(fields)[f] != fields[f];
    }
  }

  /** For every URL, of any length, the ranges that the URL loop sets are the true ones exactly when every true offset
      and length is below 65536. */
  lemma UrlLoopExactly(isConnect: bool, buf: seq<char>)
    ensures var sc, t := ScanFrom(ScanStart(isConnect), 0, buf), TrueFrom(ScanStart(isConnect), 0, buf);
            && sc == t.(fields := CutAll(t.fields))
            && (sc == t <==> Fits16(t.fields))
  {
    hide ScanFrom, TrueFrom, Fits16;
    assert CutAll(map[]) == map[];
    ScanCuts(ScanStart(isConnect), 0, buf);
    CutFits(TrueFrom(ScanStart(isConnect), 0, buf).fields);
  }

  lemma TrueStepGood(sc: Scan, pos: nat, c: char)
    requires ScanGood(sc, pos) && ParseUrlChar(sc.s, c) != Dead
    ensures ScanGood(TrueStep(sc, pos, c), pos + 1)
  {
    hide ParseUrlChar, Reach, FieldOf, Ordered, Order;
    StepReach(sc.s, c);
    var s := ParseUrlChar(sc.s, c);
    if FieldOf(s).Some? {
      var uf := FieldOf(s).value;
      assert sc.last == Some(uf) ==> FieldOf(sc.s) == Some(uf);
      assert uf in sc.fields ==> Reach(sc.s) == Reach(s);
      MarkOrdered(sc.fields, pos, uf, TrueMark(sc.fields, sc.last, uf, pos)[uf]);
    }
  }

  /** The true ranges of every URL the loop accepts are non-empty, in bounds and in order. */
  lemma {:induction false} TrueRunGood(sc: Scan, pos: nat, bs: seq<char>)
    requires ScanGood(sc, pos) && TrueFrom(sc, pos, bs).s != Dead
    ensures ScanGood(TrueFrom(sc, pos, bs), pos + |bs|)
  {
    hide TrueStep, ScanGood, ParseUrlChar;
    if bs != [] {
      var init, c := bs[..|bs| - 1], bs[|bs| - 1];
      var r := TrueFrom(sc, pos, init);
      TrueStepState(r, pos + |init|, c);
      DeadStays(r.s, c);
      TrueRunGood(sc, pos, init);
      TrueStepGood(r, pos + |init|, c);
    }
  }

  lemma TrueStepState(sc: Scan, pos: nat, c: char)
    ensures TrueStep(sc, pos, c).s == ParseUrlChar(sc.s, c)
  {
    hide ParseUrlChar, TrueMark;
  }

  // ---------- scans ----------

  lemma ScanSnoc(sc: Scan, pos: nat, init: seq<char>, c: char)
    ensures ScanFrom(sc, pos, init + [c]) == ScanStep(ScanFrom(sc, pos, init), pos + |init|, c)
  {
    hide ScanStep;
    assert (init + [c])[..|init|] == init;
  }

  lemma DeadStays(s: State, c: char)
    ensures s == Dead ==> ParseUrlChar(s, c) == Dead
  {}

  lemma DeadHostStays(s: HostState, c: char)
    ensures s == HostDead ==> ParseHostChar(s, c) == HostDead
  {}

  /** The ranges found so far in an authority that starts at `start`. */
  ghost predicate HostGood(h: HostScan, start: nat, bs: seq<char>) {
    var pos := start + |bs|;
    && start <= h.host.off && InBounds(h.host, pos)
    && (h.user.Some? ==> start <= h.user.value.off && 0 < h.user.value.len && InBounds(h.user.value, pos))
    && (h.user.Some? && h.host.len > 0 ==> InBounds(h.user.value, h.host.off))
    && (h.host.len == 0 <==> h.s in {UserinfoStart, Userinfo, HostStart, HostV6Start})
    && (h.s in {HostName, HostV6, HostV6ZoneStart, HostV6Zone} ==> h.host.off + h.host.len == pos)
    && (h.port.Some? <==> h.s == HostPort)
    && (h.s == Userinfo ==> h.user.Some? && h.user.value.off + h.user.value.len == pos)
    && (h.s == UserinfoStart ==> h.user.None?)
    && (h.s == HostV6End ==> h.host.off + h.host.len + 1 == pos)
    && (h.s == HostPort ==> HostPortGood(h, start, bs))
  }

  ghost predicate HostPortGood(h: HostScan, start: nat, bs: seq<char>)
    requires h.port.Some?
  {
    var r := h.port.value;
    && 0 < r.len && h.host.off + h.host.len <= r.off && start <= r.off && r.off + r.len == start + |bs|
    && AllDigits(bs[r.off - start..])
  }

  function TrueLonger(r: Range): Range { Range(r.off, r.len + 1) }

  /** One byte of the host loop, with ranges of any size. */
  function TrueHostStep(h: HostScan, pos: nat, c: char): HostScan {
    var s := ParseHostChar(h.s, c);
    match s
    case HostName | HostV6 => h.(s := s, host := TrueLonger(if h.s != s then Range(pos, h.host.len) else h.host))
    case HostV6ZoneStart | HostV6Zone => h.(s := s, host := TrueLonger(h.host))
    case HostPort =>
      h.(s := s, port := Some(TrueLonger(if h.s != s || h.port.None? then Range(pos, 0) else h.port.value)))
    case Userinfo =>
      h.(s := s, user := Some(TrueLonger(if h.s != s || h.user.None? then Range(pos, 0) else h.user.value)))
    case _ => h.(s := s)
  }

  function TrueHostFrom(h: HostScan, pos: nat, bs: seq<char>): HostScan {
    if bs == [] then h else TrueHostStep(TrueHostFrom(h, pos, bs[..|bs| - 1]), pos + |bs| - 1, bs[|bs| - 1])
  }

  function CutOpt(r: Option<Range>): Option<Range> { match r case None => None case Some(v) => Some(Cut(v)) }

  function CutHost(h: HostScan): HostScan { HostScan(h.s, Cut(h.host), CutOpt(h.port), CutOpt(h.user)) }

  lemma LongerCuts(r: Range)
    ensures Longer(Cut(r)) == Cut(TrueLonger(r))
  {
    CutLonger(r.len);
  }

  lemma HostStepCuts(h: HostScan, pos: nat, c: char)
    ensures HostStep(CutHost(h), pos, c) == CutHost(TrueHostStep(h, pos, c))
  {
    hide ParseHostChar, W16;
    LongerCuts(h.host);
    LongerCuts(Range(pos, h.host.len));
    LongerCuts(Range(pos, 0));
    assert W16(0) == 0;
    if h.port.Some? { LongerCuts(h.port.value); }
    if h.user.Some? { LongerCuts(h.user.value); }
  }

  /** The host loop finds the true ranges of the bytes it is given, cut to 16 bits. */
  lemma {:induction false} HostCuts(h: HostScan, pos: nat, bs: seq<char>)
    ensures HostFrom(CutHost(h), pos, bs) == CutHost(TrueHostFrom(h, pos, bs))
  {
    hide HostStep, TrueHostStep, CutHost;
    if bs != [] {
      var init := bs[..|bs| - 1];
      HostCuts(h, pos, init);
      HostStepCuts(TrueHostFrom(h, pos, init), pos + |init|, bs[|init|]);
    }
  }

  lemma HostStepGood(h: HostScan, start: nat, bs: seq<char>, c: char)
    requires HostGood(h, start, bs) && ParseHostChar(h.s, c) != HostDead
    ensures HostGood(TrueHostStep(h, start + |bs|, c), start, bs + [c])
  {
    hide IsHostChar, IsV6Char, IsZoneChar, IsUserinfoChar, IsNum;
    if h.s == HostPort {
      var k := h.port.value.off - start;
      assert (bs + [c])[k..] == bs[k..] + [c];
    } else if h.s == HostPortStart {
      assert (bs + [c])[|bs|..] == [c];
    }
  }

  lemma TrueHostStepState(h: HostScan, pos: nat, c: char)
    ensures TrueHostStep(h, pos, c).s == ParseHostChar(h.s, c)
  {
    hide ParseHostChar;
  }

  lemma {:induction false} HostRunGood(h: HostScan, start: nat, bs: seq<char>)
    requires HostGood(h, start, []) && TrueHostFrom(h, start, bs).s != HostDead
    ensures HostGood(TrueHostFrom(h, start, bs), start, bs)
  {
    hide ParseHostChar, HostGood, TrueHostStep, TrueHostFrom;
    if bs == [] {
      NoHostBytes(h, start);
    } else {
      var init, c := bs[..|bs| - 1], bs[|bs| - 1];
      var g := TrueHostFrom(h, start, init);
      TrueHostLast(h, start, bs);
      TrueHostStepState(g, start + |init|, c);
      DeadHostStays(g.s, c);
      HostRunGood(h, start, init);
      HostStepGood(g, start, init, c);
      assert init + [c] == bs;
    }
  }

  lemma NoHostBytes(h: HostScan, start: nat)
    ensures TrueHostFrom(h, start, []) == h
  {}

  lemma TrueHostLast(h: HostScan, start: nat, bs: seq<char>)
    requires bs != []
    ensures var last := |bs| - 1;
            TrueHostFrom(h, start, bs) == TrueHostStep(TrueHostFrom(h, start, bs[..last]), start + last, bs[last])
  {
    hide TrueHostStep;
  }

  /** Splitting the host field keeps the fields ordered. */
  lemma SplitGood(fields: map<UrlField, Range>, h: HostScan, bs: seq<char>, n: nat)
    requires Ordered(fields) && Within(fields, n) && HOST in fields && PORT !in fields && USERINFO !in fields
    requires fields[HOST].len == |bs| && HostGood(h, fields[HOST].off, bs) && HostAccepts(h.s)
    ensures Ordered(SplitHost(fields, h)) && Within(SplitHost(fields, h), n)
  {
    var m := SplitHost(fields, h);
    forall f, g ensures Precedes(m, f, g) {
      hide HostPortGood;
      assert Precedes(fields, f, g) && Precedes(fields, HOST, g) && Precedes(fields, f, HOST);
    }
  }

  lemma {:induction false} PortIsDecimal(ds: seq<char>)
    requires AllDigits(ds)
    ensures DecValue(ds) >= 0
    ensures PortValue(ds) == if DecValue(ds) <= 0xffff then Some(DecValue(ds)) else None
  {
    if ds != [] {
      PortIsDecimal(ds[..|ds| - 1]);
      assert DecValue(ds) == DecValue(ds[..|ds| - 1]) * 10 + Digit(ds[|ds| - 1]);
      assert IsNum(ds[|ds| - 1]);
    }
  }

  // ---------- when the ranges are right ----------

  /** The host loop on the true authority of a URL. */
  function TrueHost(isConnect: bool, buf: seq<char>): HostScan
    requires Splits(isConnect, buf)
  {
    var t := TrueFrom(ScanStart(isConnect), 0, buf);
    var r := t.fields[HOST];
    TrueHostFrom(HostStarted(t.at, r.off), r.off, RangeOf(buf, r))
  }

  /** The URL loop accepts the URL and finds an authority. */
  predicate Splits(isConnect: bool, buf: seq<char>) {
    var t := TrueFrom(ScanStart(isConnect), 0, buf);
    t.s != Dead && HOST in t.fields && InBounds(t.fields[HOST], |buf|)
  }

  /** The true ranges of a URL's parts, however long it is; None when its characters are refused. */
  function TrueRanges(isConnect: bool, buf: seq<char>): Option<map<UrlField, Range>> {
    var t := TrueFrom(ScanStart(isConnect), 0, buf);
    if t.s == Dead then None
    else if !Splits(isConnect, buf) then Some(t.fields)
    else if HostAccepts(TrueHost(isConnect, buf).s) then Some(SplitHost(t.fields, TrueHost(isConnect, buf)))
    else None
  }

  /** Every true offset and length, that of the whole authority included, is below 65536. */
  predicate Fits(isConnect: bool, buf: seq<char>) {
    && Fits16(TrueFrom(ScanStart(isConnect), 0, buf).fields)
    && (TrueRanges(isConnect, buf).Some? ==> Fits16(TrueRanges(isConnect, buf).value))
  }

  lemma TrueScanGood(isConnect: bool, buf: seq<char>)
    requires TrueFrom(ScanStart(isConnect), 0, buf).s != Dead
    ensures var t := TrueFrom(ScanStart(isConnect), 0, buf);
            && ScanGood(t, |buf|) && PORT !in t.fields && USERINFO !in t.fields
            && (HOST in t.fields ==> Splits(isConnect, buf))
  {
    hide TrueFrom, ScanFrom, Ordered;
    StartGood(isConnect);
    TrueRunGood(ScanStart(isConnect), 0, buf);
  }

  lemma AuthorityGood(isConnect: bool, buf: seq<char>)
    requires Splits(isConnect, buf) && HostAccepts(TrueHost(isConnect, buf).s)
    ensures var r := TrueFrom(ScanStart(isConnect), 0, buf).fields[HOST];
            HostGood(TrueHost(isConnect, buf), r.off, RangeOf(buf, r))
  {
    hide TrueFrom, TrueHostFrom, HostGood;
    var t := TrueFrom(ScanStart(isConnect), 0, buf);
    var r := t.fields[HOST];
    assert HostGood(HostStarted(t.at, r.off), r.off, []) by { HostStartGood(t.at, r.off); }
    HostRunGood(HostStarted(t.at, r.off), r.off, RangeOf(buf, r));
  }

  lemma HostStartGood(at: bool, off: nat)
    ensures HostGood(HostStarted(at, off), off, [])
  {}

  /** The true ranges are non-empty, in bounds and in order, for URLs of any length. */
  lemma TrueRangesGood(isConnect: bool, buf: seq<char>)
    requires TrueRanges(isConnect, buf).Some?
    ensures var fields := TrueRanges(isConnect, buf).value;
            && Ordered(fields) && Within(fields, |buf|)
            && (PORT in fields ==> AllDigits(RangeOf(buf, fields[PORT])))
            && (PORT in fields || USERINFO in fields ==> HOST in fields)
  {
    hide TrueFrom, TrueHost, Ordered, Within, AllDigits, HostGood;
    TrueScanGood(isConnect, buf);
    var t := TrueFrom(ScanStart(isConnect), 0, buf);
    if Splits(isConnect, buf) {
      var r := t.fields[HOST];
      var h := TrueHost(isConnect, buf);
      AuthorityGood(isConnect, buf);
      SplitGood(t.fields, h, RangeOf(buf, r), |buf|);
      if h.port.Some? { PortDigitsGood(h, r, buf); }
    }
  }

  lemma PortDigitsGood(h: HostScan, r: Range, buf: seq<char>)
    requires InBounds(r, |buf|) && HostGood(h, r.off, RangeOf(buf, r)) && h.port.Some?
    ensures InBounds(h.port.value, |buf|) && AllDigits(RangeOf(buf, h.port.value))
  {
    hide AllDigits;
    var q := h.port.value;
    assert RangeOf(buf, r)[q.off - r.off..] == RangeOf(buf, q);
  }

  lemma SplitCuts(fields: map<UrlField, Range>, h: HostScan)
    ensures SplitHost(CutAll(fields), CutHost(h)) == CutAll(SplitHost(fields, h))
  {}

  lemma CutStart(at: bool, off: nat)
    requires off <= 0xffff
    ensures CutHost(HostStarted(at, off)) == HostStarted(at, off)
  {}

  lemma CutAllFits(fields: map<UrlField, Range>)
    ensures Fits16(CutAll(fields))
  {}

  /** Whatever ranges the parser reports are 16-bit numbers. */
  lemma ReportedFits(isConnect: bool, buf: seq<char>)
    ensures var o := HostResult(buf, ScanFrom(ScanStart(isConnect), 0, buf), isConnect); o.Some? ==> Fits16(o.value)
  {
    hide ScanFrom, TrueFrom, HostFrom, TrueHostFrom, CutAll, CutHost, SplitHost, Fits16;
    UrlLoopExactly(isConnect, buf);
    var sc := ScanFrom(ScanStart(isConnect), 0, buf);
    var t := TrueFrom(ScanStart(isConnect), 0, buf);
    ScanInBounds0(buf, isConnect);
    if HOST in sc.fields {
      var r := sc.fields[HOST];
      HostOffFits(t.fields);
      CutStart(sc.at, r.off);
      HostCuts(HostStarted(sc.at, r.off), r.off, RangeOf(buf, r));
      var h := TrueHostFrom(HostStarted(sc.at, r.off), r.off, RangeOf(buf, r));
      SplitCuts(t.fields, h);
      CutAllFits(SplitHost(t.fields, h));
    } else {
      CutAllFits(t.fields);
    }
  }

  lemma HostOffFits(fields: map<UrlField, Range>)
    ensures HOST in CutAll(fields) ==> CutAll(fields)[HOST].off <= 0xffff
  {}

  /** When the URL loop's ranges fit, so that the host loop sees the whole authority. */
  lemma WholeAuthority(isConnect: bool, buf: seq<char>)
    requires TrueFrom(ScanStart(isConnect), 0, buf).s != Dead && Fits16(TrueFrom(ScanStart(isConnect), 0, buf).fields)
    ensures HostResult(buf, ScanFrom(ScanStart(isConnect), 0, buf), isConnect) ==
            match TrueRanges(isConnect, buf) case None => None case Some(fields) => Some(CutAll(fields))
  {
    hide ScanFrom, TrueFrom, HostFrom, TrueHostFrom, CutAll, CutHost, SplitHost;
    UrlLoopExactly(isConnect, buf);
    var t := TrueFrom(ScanStart(isConnect), 0, buf);
    CutFits(t.fields);
    ScanInBounds0(buf, isConnect);
    if HOST in t.fields {
      var r := t.fields[HOST];
      CutStart(t.at, r.off);
      HostCuts(HostStarted(t.at, r.off), r.off, RangeOf(buf, r));
      SplitCuts(t.fields, TrueHost(isConnect, buf));
      CutState(TrueHost(isConnect, buf));
    }
  }

  lemma CutState(h: HostScan)
    ensures CutHost(h).s == h.s
  {}

  /** An authority that is cut short does not yield the true ranges, even if they all fit: its last part ends too
      late. */
  lemma ShortAuthority(isConnect: bool, buf: seq<char>)
    requires TrueRanges(isConnect, buf).Some? && Fits16(TrueRanges(isConnect, buf).value)
    requires !Fits16(TrueFrom(ScanStart(isConnect), 0, buf).fields)
    ensures HostResult(buf, ScanFrom(ScanStart(isConnect), 0, buf), isConnect) != TrueRanges(isConnect, buf)
  {
    hide ScanFrom, TrueFrom, HostFrom, TrueHostFrom, AllDigits, ScanGood;
    UrlLoopExactly(isConnect, buf);
    TrueScanGood(isConnect, buf);
    ScanInBounds0(buf, isConnect);
    var sc := ScanFrom(ScanStart(isConnect), 0, buf);
    var t := TrueFrom(ScanStart(isConnect), 0, buf);
    if HOST in t.fields {
      AuthorityGood(isConnect, buf);
      var th := TrueHost(isConnect, buf);
      var r, rc := t.fields[HOST], sc.fields[HOST];
      OthersFit(t.fields, th);
      assert r.off <= th.host.off == TrueRanges(isConnect, buf).value[HOST].off <= 0xffff;
      assert r.len > 0xffff && rc == Range(r.off, W16(r.len));
      var h := HostFrom(HostStarted(sc.at, rc.off), rc.off, RangeOf(buf, rc));
      HostInBounds(HostStarted(sc.at, rc.off), rc.off, RangeOf(buf, rc));
      LateEnd(t.fields, sc.fields, th, h, r, buf);
    }
  }

  /** The parts outside the authority are as the URL loop has them. */
  lemma OthersFit(fields: map<UrlField, Range>, h: HostScan)
    requires Fits16(SplitHost(fields, h)) && PORT !in fields && USERINFO !in fields
    ensures forall f :: f in fields && f != HOST ==> fields[f].off <= 0xffff && fields[f].len <= 0xffff
    ensures SplitHost(fields, h)[HOST] == h.host && h.host.off <= 0xffff
  {
    forall f | f in fields && f != HOST ensures fields[f] == SplitHost(fields, h)[f] {}
  }

  lemma LateEnd(fields: map<UrlField, Range>, cutFields: map<UrlField, Range>, th: HostScan, h: HostScan, r: Range,
                buf: seq<char>)
    requires InBounds(r, |buf|) && r.len > 0xffff && HostGood(th, r.off, RangeOf(buf, r)) && HostAccepts(th.s)
    requires HostBounded(h, r.off + W16(r.len)) && PORT !in cutFields
    ensures SplitHost(cutFields, h) != SplitHost(fields, th)
  {
    hide AllDigits;
    var a, b := SplitHost(cutFields, h), SplitHost(fields, th);
    assert W16(r.len) + 0xffff < r.len;
    if th.s == HostPort {
      assert b[PORT] == th.port.value;
      assert PORT in a ==> a[PORT].off + a[PORT].len <= r.off + W16(r.len);
    } else {
      assert b[HOST] == th.host && a[HOST] == h.host;
    }
  }

  /** For every URL whose characters are accepted, of any length: the ranges that the parser reports are the true ones
      exactly when every true offset and length, that of the whole authority included, is below 65536. */
  lemma RangesExactly(isConnect: bool, buf: seq<char>)
    requires TrueRanges(isConnect, buf).Some?
    ensures HostResult(buf, ScanFrom(ScanStart(isConnect), 0, buf), isConnect) == TrueRanges(isConnect, buf) <==>
            Fits(isConnect, buf)
  {
    hide ScanFrom, TrueFrom, HostResult, TrueRanges, CutAll, Fits16;
    var t := TrueFrom(ScanStart(isConnect), 0, buf);
    assert t.s != Dead by { NotDead(isConnect, buf); }
    if Fits16(t.fields) {
      WholeAuthority(isConnect, buf);
      CutFits(TrueRanges(isConnect, buf).value);
    } else {
      ReportedFits(isConnect, buf);
      if Fits16(TrueRanges(isConnect, buf).value) { ShortAuthority(isConnect, buf); }
    }
  }

  lemma NotDead(isConnect: bool, buf: seq<char>)
    requires TrueRanges(isConnect, buf).Some?
    ensures TrueFrom(ScanStart(isConnect), 0, buf).s != Dead
  {
    hide TrueFrom, TrueHost;
  }

  lemma ScanRunGood(isConnect: bool, buf: seq<char>)
    requires ScanFrom(ScanStart(isConnect), 0, buf).s != Dead && Fits(isConnect, buf)
    ensures ScanGood(ScanFrom(ScanStart(isConnect), 0, buf), |buf|)
  {
    hide ScanFrom, TrueFrom, ScanGood, CutAll, Fits16, TrueRanges;
    UrlLoopExactly(isConnect, buf);
    TrueScanGood(isConnect, buf);
  }

  /** A URL of at most 65535 bytes fits. */
  lemma ShortFits(isConnect: bool, buf: seq<char>)
    requires |buf| <= 0xffff && ScanFrom(ScanStart(isConnect), 0, buf).s != Dead
    ensures Fits(isConnect, buf)
  {
    hide ScanFrom, TrueFrom, CutAll, TrueRanges, Ordered;
    UrlLoopExactly(isConnect, buf);
    TrueScanGood(isConnect, buf);
    if TrueRanges(isConnect, buf).Some? { TrueRangesGood(isConnect, buf); }
  }

  /** A path that does not fit: its length comes out modulo 65536. */
  lemma LongPathWraps(path: seq<char>)
    requires |path| > 0xffff && path[0] == '/' && forall k :: 0 < k < |path| ==> path[k] == 'a'
    ensures ParseResult(path, false) == Some(Parts(map[PATH := Range(0, W16(|path|))], 0))
    ensures !Fits(false, path)
  {
    hide ScanFrom, TrueFrom, CutAll, ParseUrlChar;
    LongPathTrue(path);
    UrlLoopExactly(false, path);
    var t := map[PATH := Range(0, |path|)];
    assert CutAll(t) == map[PATH := Range(0, W16(|path|))] by { CutOne(|path|); }
  }

  lemma CutOne(n: nat)
    ensures CutAll(map[PATH := Range(0, n)]) == map[PATH := Range(0, W16(n))]
  {}

  lemma {:induction false} LongPathTrue(path: seq<char>)
    requires |path| > 0 && path[0] == '/' && forall k :: 0 < k < |path| ==> path[k] == 'a'
    ensures TrueFrom(ScanStart(false), 0, path) == Scan(ReqPath, map[PATH := Range(0, |path|)], Some(PATH), false)
  {
    PathChars();
    hide ParseUrlChar;
    var init := path[..|path| - 1];
    if |path| == 1 {
      assert TrueFrom(ScanStart(false), 0, init) == ScanStart(false);
    } else {
      LongPathTrue(init);
      assert map[PATH := Range(0, |init|)][PATH := Range(0, |path|)] == map[PATH := Range(0, |path|)];
    }
  }

  lemma PathChars()
    ensures ParseUrlChar(ReqSpacesBeforeUrl, '/') == ReqPath && ParseUrlChar(ReqPath, 'a') == ReqPath
  {}

  /**
   * For every URL that is accepted and fits, the ranges that are set are non-empty, in bounds, disjoint and in order, a
   * scheme comes with a host, and the port is the value of its digits.
   */
  lemma AcceptedUrl(buf: seq<char>, isConnect: bool)
    requires Fits(isConnect, buf) && ParseResult(buf, isConnect).Some?
    ensures var r := ParseResult(buf, isConnect).value;
            && Some(r.fields) == TrueRanges(isConnect, buf)
            && Ordered(r.fields) && Within(r.fields, |buf|)
            && (SCHEMA in r.fields ==> HOST in r.fields)
            && (PORT in r.fields ==> HOST in r.fields && AllDigits(RangeOf(buf, r.fields[PORT])))
            && (USERINFO in r.fields ==> HOST in r.fields)
            && r.port == (if PORT in r.fields then DecValue(RangeOf(buf, r.fields[PORT])) else 0) <= 0xffff
  {
    AcceptedRanges(buf, isConnect);
    AcceptedSchema(buf, isConnect);
    hide ScanFrom, TrueFrom, Fits, TrueRanges, HostResult, PortValue, Ordered, Within, AllDigits;
    TrueRangesGood(isConnect, buf);
    var r := ParseResult(buf, isConnect).value;
    if PORT in r.fields { PortIsDecimal(RangeOf(buf, r.fields[PORT])); }
  }

  lemma AcceptedRanges(buf: seq<char>, isConnect: bool)
    requires Fits(isConnect, buf) && ParseResult(buf, isConnect).Some?
    ensures Some(ParseResult(buf, isConnect).value.fields) == TrueRanges(isConnect, buf)
  {
    hide ScanFrom, TrueFrom, HostResult, TrueRanges, CutAll, Fits16, PortValue;
    UrlLoopExactly(isConnect, buf);
    WholeAuthority(isConnect, buf);
    CutFits(TrueRanges(isConnect, buf).value);
  }

  lemma AcceptedSchema(buf: seq<char>, isConnect: bool)
    requires ParseResult(buf, isConnect).Some?
    ensures var r := ParseResult(buf, isConnect).value; SCHEMA in r.fields ==> HOST in r.fields
  {
    hide ScanFrom, HostFrom, PortValue;
  }

  lemma StartGood(isConnect: bool)
    ensures ScanGood(ScanStart(isConnect), 0)
  {}

  // ---------- composed URLs ----------

  datatype HostText = Name(name: seq<char>) | V6(addr: seq<char>, zone: Option<seq<char>>)

  /** A URL's components: absolute, in origin form, or the authority of a CONNECT request. */
  datatype Url =
    | Absolute(scheme: seq<char>, user: Option<seq<char>>, host: HostText, port: Option<seq<char>>, tail: Tail)
    | Origin(tail: Tail)
    | Connect(host: HostText, digits: seq<char>)

  datatype Tail = Tail(path: seq<char>, query: Option<seq<char>>, fragment: Option<seq<char>>)

  function After(sep: char, o: Option<seq<char>>): seq<char> { if o.Some? then [sep] + o.value else [] }

  function TailText(t: Tail): seq<char> { t.path + (After('?', t.query) + After('#', t.fragment)) }

  /** The host as the host field has it, without brackets. */
  function BareHost(h: HostText): seq<char> {
    match h case Name(n) => n case V6(a, z) => a + After('%', z)
  }

  function HostWritten(h: HostText): seq<char> { if h.Name? then h.name else ['['] + BareHost(h) + [']'] }

  function UserWritten(user: Option<seq<char>>): seq<char> { if user.Some? then user.value + ['@'] else [] }

  function AuthorityText(user: Option<seq<char>>, host: HostText, port: Option<seq<char>>): seq<char> {
    UserWritten(user) + (HostWritten(host) + After(':', port))
  }

  function Compose(u: Url): seq<char> {
    match u
    case Absolute(scheme, user, host, port, tail) =>
      scheme + ("://" + (AuthorityText(user, host, port) + TailText(tail)))
    case Origin(tail) => TailText(tail)
    case Connect(host, digits) => AuthorityText(None, host, Some(digits))
  }

  predicate All(bs: seq<char>, p: char -> bool) { forall k :: 0 <= k < |bs| ==> p(bs[k]) }

  predicate IsQueryChar(c: char) { IsUrlChar(c) || c == '?' }

  predicate IsFragmentChar(c: char) { IsUrlChar(c) || c == '?' || c == '#' }

  predicate WellFormedTail(t: Tail) {
    && (t.path != [] ==> All(t.path, IsUrlChar))
    && (t.query.Some? ==> All(t.query.value, IsQueryChar))
    && (t.fragment.Some? ==>
          && (t.path != [] || t.query.Some?)
          && All(t.fragment.value, IsFragmentChar) && (t.fragment.value != [] ==> t.fragment.value[0] != '#'))
  }

  predicate WellFormedHost(h: HostText) {
    match h
    case Name(n) => n != [] && All(n, IsHostChar)
    case V6(a, z) => a != [] && All(a, IsV6Char) && (z.Some? ==> z.value != [] && All(z.value, IsZoneChar))
  }

  predicate WellFormed(u: Url) {
    match u
    case Absolute(scheme, user, host, port, tail) =>
      && scheme != [] && All(scheme, IsAlpha)
      && (user.Some? ==> All(user.value, IsUserinfoChar))
      && WellFormedHost(host)
      && (port.Some? ==> port.value != [] && AllDigits(port.value))
      && WellFormedTail(tail) && (tail.path != [] ==> tail.path[0] == '/')
    case Origin(tail) => WellFormedTail(tail) && tail.path != [] && (tail.path[0] == '/' || tail.path[0] == '*')
    case Connect(host, digits) => WellFormedHost(host) && digits != [] && AllDigits(digits)
  }

  /** Field `f` holds the `n` bytes at `off`; an empty component is not set. */
  function Put(fields: map<UrlField, Range>, f: UrlField, off: nat, n: nat): map<UrlField, Range> {
    if n == 0 then fields else fields[f := Range(off, n)]
  }

  function Size(o: Option<seq<char>>): nat { if o.Some? then |o.value| else 0 }

  function PutTail(fields: map<UrlField, Range>, off: nat, t: Tail): map<UrlField, Range> {
    var q := off + |t.path| + 1;
    var f := off + |t.path| + |After('?', t.query)| + 1;
    Put(Put(Put(fields, PATH, off, |t.path|), QUERY, q, Size(t.query)), FRAGMENT, f, Size(t.fragment))
  }

  function PutAuthority(fields: map<UrlField, Range>, off: nat, user: Option<seq<char>>, host: HostText,
                        port: Option<seq<char>>): map<UrlField, Range> {
    var h := off + |UserWritten(user)|;
    var p := h + |HostWritten(host)| + 1;
    Put(Put(Put(fields, USERINFO, off, Size(user)), HOST, if host.V6? then h + 1 else h, |BareHost(host)|), PORT, p,
        Size(port))
  }

  /** Where each component of a composed URL is. */
  function Places(u: Url): map<UrlField, Range> {
    match u
    case Absolute(scheme, user, host, port, tail) =>
      var a := |scheme| + 3;
      PutTail(PutAuthority(map[SCHEMA := Range(0, |scheme|)], a, user, host, port),
              a + |AuthorityText(user, host, port)|, tail)
    case Origin(tail) => PutTail(map[], 0, tail)
    case Connect(host, digits) => PutAuthority(map[], 0, None, host, Some(digits))
  }

  function PortDigits(u: Url): seq<char> {
    match u
    case Absolute(_, _, _, port, _) => if port.Some? then port.value else []
    case Origin(_) => []
    case Connect(_, digits) => digits
  }

  lemma {:induction false} ScanAppend(sc: Scan, pos: nat, a: seq<char>, b: seq<char>)
    ensures ScanFrom(sc, pos, a + b) == ScanFrom(ScanFrom(sc, pos, a), pos + |a|, b)
  {
    hide ScanStep;
    if b == [] {
      assert a + b == a;
    } else {
      var s := a + b;
      assert s[..|s| - 1] == a + b[..|b| - 1];
      ScanAppend(sc, pos, a, b[..|b| - 1]);
    }
  }

  lemma {:induction false} HostAppend(h: HostScan, pos: nat, a: seq<char>, b: seq<char>)
    ensures HostFrom(h, pos, a + b) == HostFrom(HostFrom(h, pos, a), pos + |a|, b)
  {
    hide HostStep;
    if b == [] {
      assert a + b == a;
    } else {
      var s := a + b;
      assert s[..|s| - 1] == a + b[..|b| - 1];
      HostAppend(h, pos, a, b[..|b| - 1]);
    }
  }

  lemma ScanOne(sc: Scan, pos: nat, c: char)
    ensures ScanFrom(sc, pos, [c]) == ScanStep(sc, pos, c)
  {
    hide ScanStep;
    assert [c][..0] == [];
  }

  lemma HostOne(h: HostScan, pos: nat, c: char)
    ensures HostFrom(h, pos, [c]) == HostStep(h, pos, c)
  {
    hide HostStep;
    assert [c][..0] == [];
  }

  /** A run of bytes of one field. */
  function Stretch(sc: Scan, uf: UrlField, pos: nat, n: nat): map<UrlField, Range> {
    if sc.last == Some(uf) && uf in sc.fields then sc.fields[uf := Range(sc.fields[uf].off, W16(sc.fields[uf].len + n))]
    else sc.fields[uf := Range(pos, n)]
  }

  /** A run of bytes that stay in state `st` of one field. */
  lemma {:induction false} FieldRun(sc: Scan, pos: nat, bs: seq<char>, st: State, uf: UrlField)
    requires bs != [] && FieldOf(st) == Some(uf) && st != ReqServerWithAt
    requires ParseUrlChar(sc.s, bs[0]) == st
    requires forall k :: 0 < k < |bs| ==> ParseUrlChar(st, bs[k]) == st
    requires pos + |bs| <= 0xffff
    requires sc.last == Some(uf) && uf in sc.fields ==> InBounds(sc.fields[uf], pos)
    ensures ScanFrom(sc, pos, bs) == Scan(st, Stretch(sc, uf, pos, |bs|), Some(uf), sc.at)
  {
    hide ParseUrlChar, ScanFrom, ScanStep;
    if |bs| == 1 {
      assert bs == [bs[0]];
      ScanOne(sc, pos, bs[0]);
      FieldFirst(sc, pos, bs[0], st, uf);
    } else {
      var init, c := bs[..|bs| - 1], bs[|bs| - 1];
      FieldRun(sc, pos, init, st, uf);
      ScanSnoc(sc, pos, init, c);
      assert init + [c] == bs;
      FieldNext(sc, pos, |init|, c, st, uf);
    }
  }

  lemma FieldFirst(sc: Scan, pos: nat, c: char, st: State, uf: UrlField)
    requires FieldOf(st) == Some(uf) && st != ReqServerWithAt && ParseUrlChar(sc.s, c) == st && pos < 0xffff
    requires sc.last == Some(uf) && uf in sc.fields ==> InBounds(sc.fields[uf], pos)
    ensures ScanStep(sc, pos, c) == Scan(st, Stretch(sc, uf, pos, 1), Some(uf), sc.at)
  {
    hide ParseUrlChar;
  }

  lemma StretchNext(sc: Scan, uf: UrlField, pos: nat, n: nat)
    requires n > 0 && pos + n < 0xffff
    requires sc.last == Some(uf) && uf in sc.fields ==> InBounds(sc.fields[uf], pos)
    ensures Mark(Stretch(sc, uf, pos, n), Some(uf), uf, pos + n) == Stretch(sc, uf, pos, n + 1)
  {
    var m := Stretch(sc, uf, pos, n);
    assert m[uf := Range(m[uf].off, W16(m[uf].len + 1))] == Stretch(sc, uf, pos, n + 1);
  }

  lemma FieldNext(sc: Scan, pos: nat, n: nat, c: char, st: State, uf: UrlField)
    requires FieldOf(st) == Some(uf) && st != ReqServerWithAt && ParseUrlChar(st, c) == st && pos + n < 0xffff && n > 0
    requires sc.last == Some(uf) && uf in sc.fields ==> InBounds(sc.fields[uf], pos)
    ensures ScanStep(Scan(st, Stretch(sc, uf, pos, n), Some(uf), sc.at), pos + n, c) ==
            Scan(st, Stretch(sc, uf, pos, n + 1), Some(uf), sc.at)
  {
    hide ParseUrlChar, FieldOf, Mark, Stretch;
    StretchNext(sc, uf, pos, n);
  }

  /** A delimiter that belongs to no field. */
  lemma Delimiter(sc: Scan, pos: nat, c: char)
    requires FieldOf(ParseUrlChar(sc.s, c)).None?
    ensures ScanFrom(sc, pos, [c]) == sc.(s := ParseUrlChar(sc.s, c))
  {
    hide ParseUrlChar;
    ScanOne(sc, pos, c);
  }

  lemma QueryChars(c: char)
    requires IsQueryChar(c)
    ensures ParseUrlChar(ReqQueryStringStart, c) == ReqQueryString == ParseUrlChar(ReqQueryString, c)
  {}

  lemma FragmentChars(c: char)
    requires IsFragmentChar(c)
    ensures ParseUrlChar(ReqFragment, c) == ReqFragment
    ensures c != '#' ==> ParseUrlChar(ReqFragmentStart, c) == ReqFragment
  {}

  lemma Separators()
    ensures ParseUrlChar(ReqPath, '?') == ReqQueryStringStart == ParseUrlChar(ReqServer, '?')
    ensures forall s :: s in {ReqPath, ReqQueryStringStart, ReqQueryString} ==> ParseUrlChar(s, '#') == ReqFragmentStart
  {}

  lemma PathScan(sc: Scan, pos: nat, path: seq<char>) returns (r: Scan)
    requires path != [] ==> All(path, IsUrlChar) && ParseUrlChar(sc.s, path[0]) == ReqPath && sc.last != Some(PATH)
    requires pos + |path| <= 0xffff
    ensures r == ScanFrom(sc, pos, path)
    ensures r == if path == [] then sc else Scan(ReqPath, Put(sc.fields, PATH, pos, |path|), Some(PATH), sc.at)
  {
    r := ScanFrom(sc, pos, path);
    if path != [] { FieldRun(sc, pos, path, ReqPath, PATH); }
  }

  lemma QueryScan(sc: Scan, pos: nat, query: Option<seq<char>>) returns (r: Scan)
    requires query.Some? ==> All(query.value, IsQueryChar) && sc.s in {ReqPath, ReqServer} && sc.last != Some(QUERY)
    requires pos + |After('?', query)| <= 0xffff
    ensures r == ScanFrom(sc, pos, After('?', query))
    ensures query.None? ==> r == sc
    ensures query.Some? ==> r.s in {ReqQueryStringStart, ReqQueryString} && r.last in {sc.last, Some(QUERY)}
    ensures r.fields == Put(sc.fields, QUERY, pos + 1, Size(query)) && r.at == sc.at
  {
    hide ParseUrlChar, ScanFrom, IsQueryChar;
    Separators();
    EmptyScan(sc, pos);
    r := ScanFrom(sc, pos, After('?', query));
    if query.Some? {
      forall k | 0 <= k < |query.value| { QueryChars(query.value[k]); }
      EmptyScan(sc.(s := ReqQueryStringStart), pos + 1);
      Delimiter(sc, pos, '?');
      ScanAppend(sc, pos, ['?'], query.value);
      if query.value != [] { FieldRun(sc.(s := ReqQueryStringStart), pos + 1, query.value, ReqQueryString, QUERY); }
    }
  }

  lemma FragmentDelimits()
    ensures FieldOf(ReqFragmentStart).None? && FieldOf(ReqFragment) == Some(FRAGMENT)
  {}

  lemma FragmentStates(fragment: seq<char>)
    requires fragment != [] && All(fragment, IsFragmentChar) && fragment[0] != '#'
    ensures ParseUrlChar(ReqFragmentStart, fragment[0]) == ReqFragment
    ensures forall k :: 0 < k < |fragment| ==> ParseUrlChar(ReqFragment, fragment[k]) == ReqFragment
  {
    hide ParseUrlChar, IsFragmentChar;
    forall k | 0 <= k < |fragment| { FragmentChars(fragment[k]); }
  }

  lemma FragmentText(sc: Scan, pos: nat, fragment: seq<char>)
    requires All(fragment, IsFragmentChar) && (fragment != [] ==> fragment[0] != '#')
    requires sc.s in {ReqPath, ReqQueryStringStart, ReqQueryString} && sc.last != Some(FRAGMENT)
    requires pos + |fragment| + 1 <= 0xffff
    ensures var r := ScanFrom(sc, pos, ['#'] + fragment);
            r.s != Dead && r.fields == Put(sc.fields, FRAGMENT, pos + 1, |fragment|) && r.at == sc.at
  {
    Separators();
    FragmentDelimits();
    hide ParseUrlChar, ScanFrom, IsFragmentChar, All, FieldOf;
    EmptyScan(sc.(s := ReqFragmentStart), pos + 1);
    Delimiter(sc, pos, '#');
    ScanAppend(sc, pos, ['#'], fragment);
    if fragment != [] {
      FragmentStates(fragment);
      FieldRun(sc.(s := ReqFragmentStart), pos + 1, fragment, ReqFragment, FRAGMENT);
    }
  }

  lemma FragmentScan(sc: Scan, pos: nat, fragment: Option<seq<char>>) returns (r: Scan)
    requires fragment.Some? ==>
      && All(fragment.value, IsFragmentChar) && (fragment.value != [] ==> fragment.value[0] != '#')
      && sc.s in {ReqPath, ReqQueryStringStart, ReqQueryString} && sc.last != Some(FRAGMENT)
    requires sc.s != Dead && pos + |After('#', fragment)| <= 0xffff
    ensures r == ScanFrom(sc, pos, After('#', fragment)) && r.s != Dead
    ensures r.fields == Put(sc.fields, FRAGMENT, pos + 1, Size(fragment)) && r.at == sc.at
  {
    hide ParseUrlChar, ScanFrom, IsFragmentChar, FieldOf;
    r := ScanFrom(sc, pos, After('#', fragment));
    if fragment.Some? { FragmentText(sc, pos, fragment.value); } else { EmptyScan(sc, pos); }
  }

  lemma PutNothing(fields: map<UrlField, Range>, f: UrlField, off: nat)
    ensures Put(fields, f, off, 0) == fields
  {}

  /** The path, query and fragment of a URL. */
  lemma TailScan(sc: Scan, pos: nat, t: Tail) returns (r: Scan)
    requires WellFormedTail(t) && pos + |TailText(t)| <= 0xffff
    requires if t.path != [] then ParseUrlChar(sc.s, t.path[0]) == ReqPath else sc.s == ReqServer
    requires sc.last == None || sc.last == Some(HOST)
    ensures r == ScanFrom(sc, pos, TailText(t)) && r.s != Dead
    ensures r.fields == PutTail(sc.fields, pos, t) && r.at == sc.at
  {
    hide ParseUrlChar, IsUrlChar, ScanFrom, All, Put, After, Size, FieldOf;
    var q, f := After('?', t.query), After('#', t.fragment);
    var a := PathScan(sc, pos, t.path);
    if t.path == [] { PutNothing(sc.fields, PATH, pos); }
    var b := QueryScan(a, pos + |t.path|, t.query);
    r := FragmentScan(b, pos + |t.path| + |q|, t.fragment);
    ScanAppend(sc, pos, t.path, q + f);
    ScanAppend(a, pos + |t.path|, q, f);
  }

  predicate IsServerChar(c: char) { IsUserinfoChar(c) || c == '[' || c == ']' }

  /** What follows the `@` of an authority. */
  function HostAndPort(host: HostText, port: Option<seq<char>>): seq<char> { HostWritten(host) + After(':', port) }

  lemma AuthorityChars(user: Option<seq<char>>, host: HostText, port: Option<seq<char>>)
    requires WellFormedHost(host) && (port.Some? ==> AllDigits(port.value))
    requires user.Some? ==> All(user.value, IsUserinfoChar)
    ensures HostAndPort(host, port) != [] && All(HostAndPort(host, port), IsServerChar)
    ensures user.Some? ==> All(user.value, IsServerChar)
  {
    hide IsUserinfoChar, IsHostChar, IsV6Char, IsZoneChar, IsNum;
    forall c ensures (IsHostChar(c) || IsV6Char(c) || IsZoneChar(c) || IsNum(c) || c == ':' || c == '%')
      ==> IsUserinfoChar(c) {
      ServerChars(c);
    }
  }

  lemma ServerChars(c: char)
    ensures (IsHostChar(c) || IsV6Char(c) || IsZoneChar(c) || IsNum(c) || c == ':' || c == '%') ==> IsUserinfoChar(c)
  {}

  lemma ServerState(s: State, c: char)
    requires s in {ReqServerStart, ReqServer, ReqServerWithAt} && IsServerChar(c)
    ensures ParseUrlChar(s, c) == ReqServer
  {}

  lemma ServerRun(sc: Scan, pos: nat, bs: seq<char>)
    requires bs != [] && All(bs, IsServerChar) && sc.s in {ReqServerStart, ReqServer, ReqServerWithAt}
    requires pos + |bs| <= 0xffff && (sc.last == Some(HOST) && HOST in sc.fields ==> InBounds(sc.fields[HOST], pos))
    ensures ScanFrom(sc, pos, bs) == Scan(ReqServer, Stretch(sc, HOST, pos, |bs|), Some(HOST), sc.at)
  {
    hide ParseUrlChar, IsServerChar;
    ServerState(sc.s, bs[0]);
    forall k | 0 < k < |bs| ensures ParseUrlChar(ReqServer, bs[k]) == ReqServer { ServerState(ReqServer, bs[k]); }
    FieldRun(sc, pos, bs, ReqServer, HOST);
  }

  /** The authority is one host field, with the `@` noticed. */
  lemma AuthorityScan(sc: Scan, pos: nat, user: Option<seq<char>>, host: HostText, port: Option<seq<char>>)
    requires WellFormedHost(host) && (port.Some? ==> AllDigits(port.value))
    requires user.Some? ==> All(user.value, IsUserinfoChar)
    requires sc.s == ReqServerStart && sc.last != Some(HOST) && HOST !in sc.fields
    requires pos + |AuthorityText(user, host, port)| <= 0xffff
    ensures var n := |AuthorityText(user, host, port)|;
            ScanFrom(sc, pos, AuthorityText(user, host, port))
            == Scan(ReqServer, sc.fields[HOST := Range(pos, n)], Some(HOST), sc.at || user.Some?)
  {
    hide ScanFrom, All, AllDigits, IsUserinfoChar, IsServerChar, HostWritten, WellFormedHost;
    AuthorityChars(user, host, port);
    var rest := HostAndPort(host, port);
    if user.None? {
      assert AuthorityText(user, host, port) == rest;
      ServerRun(sc, pos, rest);
    } else {
      UserThenHost(sc, pos, user.value, rest);
    }
  }

  lemma UserThenHost(sc: Scan, pos: nat, u: seq<char>, rest: seq<char>)
    requires All(u, IsServerChar) && All(rest, IsServerChar) && rest != []
    requires sc.s == ReqServerStart && sc.last != Some(HOST) && HOST !in sc.fields
    requires pos + |u| + 1 + |rest| <= 0xffff
    ensures ScanFrom(sc, pos, (u + ['@']) + rest)
            == Scan(ReqServer, sc.fields[HOST := Range(pos, |u| + 1 + |rest|)], Some(HOST), true)
  {
    hide ScanFrom, All, IsServerChar;
    ScanAppend(sc, pos, u + ['@'], rest);
    UserScan(sc, pos, u);
    ServerRun(Scan(ReqServerWithAt, sc.fields[HOST := Range(pos, |u| + 1)], Some(HOST), true), pos + |u| + 1, rest);
  }

  lemma UserScan(sc: Scan, pos: nat, u: seq<char>)
    requires All(u, IsServerChar) && sc.s == ReqServerStart && sc.last != Some(HOST) && HOST !in sc.fields
    requires pos + |u| + 1 <= 0xffff
    ensures ScanFrom(sc, pos, u + ['@'])
            == Scan(ReqServerWithAt, sc.fields[HOST := Range(pos, |u| + 1)], Some(HOST), true)
  {
    hide ScanFrom, All, IsServerChar;
    ScanAppend(sc, pos, u, ['@']);
    var a := ScanFrom(sc, pos, u);
    ScanOne(a, pos + |u|, '@');
    if u == [] {
      assert a == sc by { EmptyScan(sc, pos); }
    } else {
      ServerRun(sc, pos, u);
      assert sc.fields[HOST := Range(pos, |u|)][HOST := Range(pos, |u| + 1)] == sc.fields[HOST := Range(pos, |u| + 1)];
    }
  }

  lemma EmptyScan(sc: Scan, pos: nat)
    ensures ScanFrom(sc, pos, []) == sc
  {}

  /** A run of `n` bytes that the host loop counts in state `st`. */
  function HostCount(h: HostScan, st: HostState, pos: nat, n: nat): HostScan {
    match st
    case HostName | HostV6 => h.(s := st, host := Range(pos, W16(h.host.len + n)))
    case HostV6Zone => h.(s := st, host := Range(h.host.off, W16(h.host.len + n)))
    case HostPort => h.(s := st, port := Some(Range(pos, n)))
    case Userinfo => h.(s := st, user := Some(Range(pos, n)))
    case _ => h
  }

  lemma {:induction false} HostRun(h: HostScan, pos: nat, bs: seq<char>, st: HostState)
    requires bs != [] && st in {HostName, HostV6, HostV6Zone, HostPort, Userinfo} && h.s != st
    requires ParseHostChar(h.s, bs[0]) == st
    requires forall k :: 0 < k < |bs| ==> ParseHostChar(st, bs[k]) == st
    requires pos + |bs| <= 0xffff && InBounds(h.host, pos)
    ensures HostFrom(h, pos, bs) == HostCount(h, st, pos, |bs|)
  {
    hide ParseHostChar;
    if |bs| == 1 {
      assert bs == [bs[0]];
      HostOne(h, pos, bs[0]);
    } else {
      HostRun(h, pos, bs[..|bs| - 1], st);
    }
  }

  /** A byte of the host part that belongs to no field. */
  lemma HostDelimiter(h: HostScan, pos: nat, c: char, st: HostState)
    requires st == ParseHostChar(h.s, c) && st in {HostStart, HostV6Start, HostV6End, HostPortStart}
    ensures HostFrom(h, pos, [c]) == h.(s := st)
  {
    hide ParseHostChar;
    HostOne(h, pos, c);
  }

  lemma EmptyHost(h: HostScan, pos: nat)
    ensures HostFrom(h, pos, []) == h
  {}

  lemma UserPart(pos: nat, user: Option<seq<char>>) returns (h: HostScan)
    requires pos + |UserWritten(user)| <= 0xffff && (user.Some? ==> All(user.value, IsUserinfoChar))
    ensures h == HostFrom(HostStarted(user.Some?, pos), pos, UserWritten(user))
    ensures h == HostScan(HostStart, Range(pos, 0), None, if Size(user) > 0 then Some(Range(pos, Size(user))) else None)
  {
    hide ParseHostChar, HostFrom, IsUserinfoChar;
    var h0 := HostStarted(user.Some?, pos);
    EmptyHost(h0, pos);
    h := HostFrom(h0, pos, UserWritten(user));
    if user.Some? {
      var u := user.value;
      forall k | 0 <= k < |u| { UserState(u[k]); }
      UserState('@');
      HostAppend(h0, pos, u, ['@']);
      if u != [] { HostRun(h0, pos, u, Userinfo); }
      HostDelimiter(HostFrom(h0, pos, u), pos + |u|, '@', HostStart);
    }
  }

  lemma UserState(c: char)
    ensures IsUserinfoChar(c) ==> ParseHostChar(UserinfoStart, c) == Userinfo == ParseHostChar(Userinfo, c)
    ensures ParseHostChar(UserinfoStart, '@') == HostStart == ParseHostChar(Userinfo, '@')
  {}

  lemma HostStates(c: char)
    ensures IsHostChar(c) ==> ParseHostChar(HostStart, c) == HostName == ParseHostChar(HostName, c)
    ensures IsV6Char(c) ==> ParseHostChar(HostV6Start, c) == HostV6 == ParseHostChar(HostV6, c)
    ensures IsZoneChar(c) ==> ParseHostChar(HostV6ZoneStart, c) == HostV6Zone == ParseHostChar(HostV6Zone, c)
    ensures IsNum(c) ==> ParseHostChar(HostPortStart, c) == HostPort == ParseHostChar(HostPort, c)
  {}

  lemma HostBrackets()
    ensures ParseHostChar(HostStart, '[') == HostV6Start && ParseHostChar(HostV6, '%') == HostV6ZoneStart
    ensures ParseHostChar(HostV6, ']') == HostV6End == ParseHostChar(HostV6Zone, ']')
    ensures ParseHostChar(HostName, ':') == HostPortStart == ParseHostChar(HostV6End, ':')
  {}

  lemma HostPart(h0: HostScan, pos: nat, host: HostText) returns (h: HostScan)
    requires WellFormedHost(host) && pos + |HostWritten(host)| <= 0xffff
    requires h0.s == HostStart && h0.host.len == 0 && h0.host.off <= pos
    ensures h == HostFrom(h0, pos, HostWritten(host)) && (h.s == HostName || h.s == HostV6End)
    ensures h == h0.(s := h.s, host := Range(if host.V6? then pos + 1 else pos, |BareHost(host)|))
  {
    hide ParseHostChar, HostFrom, IsHostChar, IsV6Char, IsZoneChar;
    h := HostFrom(h0, pos, HostWritten(host));
    if host.Name? {
      forall k | 0 <= k < |host.name| { HostStates(host.name[k]); }
      HostRun(h0, pos, host.name, HostName);
    } else {
      HostBrackets();
      HostAppend(h0, pos, ['['] + BareHost(host), [']']);
      HostAppend(h0, pos, ['['], BareHost(host));
      HostDelimiter(h0, pos, '[', HostV6Start);
      var h1 := V6Part(h0.(s := HostV6Start), pos + 1, host);
      HostDelimiter(h1, pos + 1 + |BareHost(host)|, ']', HostV6End);
    }
  }

  lemma V6Part(h0: HostScan, pos: nat, host: HostText) returns (h: HostScan)
    requires host.V6? && WellFormedHost(host) && pos + |BareHost(host)| <= 0xffff
    requires h0.s == HostV6Start && h0.host.len == 0 && h0.host.off <= pos
    ensures h == HostFrom(h0, pos, BareHost(host)) && (h.s == HostV6 || h.s == HostV6Zone)
    ensures h == h0.(s := h.s, host := Range(pos, |BareHost(host)|))
  {
    hide ParseHostChar, HostFrom, IsHostChar, IsV6Char, IsZoneChar;
    h := HostFrom(h0, pos, BareHost(host));
    var addr := host.addr;
    forall k | 0 <= k < |addr| { HostStates(addr[k]); }
    HostRun(h0, pos, addr, HostV6);
    var h1 := h0.(s := HostV6, host := Range(pos, |addr|));
    if host.zone.None? {
      assert BareHost(host) == addr;
    } else {
      var zone := host.zone.value;
      HostBrackets();
      forall k | 0 <= k < |zone| { HostStates(zone[k]); }
      HostAppend(h0, pos, addr, ['%'] + zone);
      HostAppend(h1, pos + |addr|, ['%'], zone);
      HostOne(h1, pos + |addr|, '%');
      HostRun(h1.(s := HostV6ZoneStart, host := Range(pos, |addr| + 1)), pos + |addr| + 1, zone, HostV6Zone);
    }
  }

  lemma PortPart(h0: HostScan, pos: nat, port: Option<seq<char>>) returns (h: HostScan)
    requires h0.s in {HostName, HostV6End} && h0.port.None? && InBounds(h0.host, pos)
    requires port.Some? ==> port.value != [] && AllDigits(port.value)
    requires pos + |After(':', port)| <= 0xffff
    ensures h == HostFrom(h0, pos, After(':', port)) && HostAccepts(h.s)
    ensures h == h0.(s := h.s, port := if port.Some? then Some(Range(pos + 1, |port.value|)) else None)
  {
    hide ParseHostChar, HostFrom, IsNum;
    EmptyHost(h0, pos);
    h := HostFrom(h0, pos, After(':', port));
    if port.Some? {
      HostBrackets();
      forall k | 0 <= k < |port.value| { HostStates(port.value[k]); }
      HostAppend(h0, pos, [':'], port.value);
      HostDelimiter(h0, pos, ':', HostPortStart);
      HostRun(h0.(s := HostPortStart), pos + 1, port.value, HostPort);
    }
  }

  lemma HostSizes(host: HostText)
    ensures |HostWritten(host)| == |BareHost(host)| + (if host.V6? then 2 else 0)
  {}

  lemma HostAppend3(h: HostScan, pos: nat, a: seq<char>, b: seq<char>, c: seq<char>)
    ensures HostFrom(h, pos, a + (b + c)) ==
            HostFrom(HostFrom(HostFrom(h, pos, a), pos + |a|, b), pos + |a| + |b|, c)
  {
    hide HostFrom;
    HostAppend(h, pos, a, b + c);
    HostAppend(HostFrom(h, pos, a), pos + |a|, b, c);
  }

  /** The host loop finds the components of a composed authority. */
  lemma AuthoritySplit(pos: nat, user: Option<seq<char>>, host: HostText, port: Option<seq<char>>) returns (h: HostScan)
    requires WellFormedHost(host) && (port.Some? ==> port.value != [] && AllDigits(port.value))
    requires user.Some? ==> All(user.value, IsUserinfoChar)
    requires pos + |AuthorityText(user, host, port)| <= 0xffff
    ensures h == HostFrom(HostStarted(user.Some?, pos), pos, AuthorityText(user, host, port)) && HostAccepts(h.s)
    ensures var at := pos + |UserWritten(user)|;
            h == HostScan(h.s, Range(if host.V6? then at + 1 else at, |BareHost(host)|),
                          if port.Some? then Some(Range(at + |HostWritten(host)| + 1, |port.value|)) else None,
                          if Size(user) > 0 then Some(Range(pos, Size(user))) else None)
  {
    hide HostFrom, HostAccepts, All, AllDigits, WellFormedHost, UserWritten, HostWritten, BareHost, After, Size;
    var at := pos + |UserWritten(user)|;
    var a := UserPart(pos, user);
    HostSizes(host);
    var b := HostPart(a, at, host);
    h := PortPart(b, at + |HostWritten(host)|, port);
    HostAppend3(HostStarted(user.Some?, pos), pos, UserWritten(user), HostWritten(host), After(':', port));
  }

  lemma SchemeStates()
    ensures ParseUrlChar(ReqSchema, ':') == ReqSchemaSlash && ParseUrlChar(ReqSchemaSlash, '/') == ReqSchemaSlashSlash
    ensures ParseUrlChar(ReqSchemaSlashSlash, '/') == ReqServerStart && FieldOf(ReqSchema) == Some(SCHEMA)
    ensures FieldOf(ReqSchemaSlash) == None == FieldOf(ReqSchemaSlashSlash) == FieldOf(ReqServerStart)
  {}

  lemma Slashes(sc: Scan, pos: nat)
    requires sc.s == ReqSchema
    ensures ScanFrom(sc, pos, "://") == sc.(s := ReqServerStart)
  {
    hide ScanFrom, ParseUrlChar, FieldOf;
    SchemeStates();
    assert "://" == [':'] + "//" && "//" == ['/'] + ['/'];
    ScanAppend(sc, pos, [':'], "//");
    ScanAppend(sc.(s := ReqSchemaSlash), pos + 1, ['/'], ['/']);
    Delimiter(sc, pos, ':');
    Delimiter(sc.(s := ReqSchemaSlash), pos + 1, '/');
    Delimiter(sc.(s := ReqSchemaSlashSlash), pos + 2, '/');
  }

  lemma SchemeScan(scheme: seq<char>) returns (sc: Scan)
    requires scheme != [] && All(scheme, IsAlpha) && |scheme| + 3 <= 0xffff
    ensures sc == ScanFrom(ScanStart(false), 0, scheme + "://")
    ensures sc == Scan(ReqServerStart, map[SCHEMA := Range(0, |scheme|)], Some(SCHEMA), false)
  {
    hide ScanFrom, IsAlpha, ParseUrlChar, FieldOf;
    var n := |scheme|;
    var s0 := ScanStart(false);
    sc := ScanFrom(s0, 0, scheme + "://");
    SchemeStates();
    forall k | 0 <= k < n { SchemeChars(scheme[k]); }
    FieldRun(s0, 0, scheme, ReqSchema, SCHEMA);
    ScanAppend(s0, 0, scheme, "://");
    Slashes(ScanFrom(s0, 0, scheme), n);
  }

  lemma SchemeChars(c: char)
    ensures ParseUrlChar(ReqSchema, ':') == ReqSchemaSlash
    ensures IsAlpha(c) ==> ParseUrlChar(ReqSpacesBeforeUrl, c) == ReqSchema == ParseUrlChar(ReqSchema, c)
  {}

  /** The fields the URL loop finds in a composed URL, where the whole authority is the host field. */
  predicate Scanned(u: Url, sc: Scan) {
    && sc.at == (u.Absolute? && u.user.Some?)
    && match u
       case Absolute(scheme, user, host, port, tail) =>
         var a := |scheme| + 3;
         var n := |AuthorityText(user, host, port)|;
         sc.fields == PutTail(map[SCHEMA := Range(0, |scheme|)][HOST := Range(a, n)], a + n, tail)
       case Origin(tail) => sc.fields == PutTail(map[], 0, tail)
       case Connect(host, digits) => sc.fields == map[HOST := Range(0, |Compose(u)|)]
  }

  /** The URL loop over a composed URL: it sees the whole authority as the host field. */
  lemma ComposedScan(u: Url) returns (sc: Scan)
    requires WellFormed(u) && |Compose(u)| <= 0xffff
    ensures sc == ScanFrom(ScanStart(u.Connect?), 0, Compose(u)) && sc.s != Dead
    ensures Scanned(u, sc)
  {
    hide ScanFrom, AuthorityText, TailText, PutTail, IsAlpha, WellFormedTail, WellFormedHost;
    var s0 := ScanStart(u.Connect?);
    if u.Absolute? {
      var a := SchemeScan(u.scheme);
      var auth := AuthorityText(u.user, u.host, u.port);
      AuthorityScan(a, |u.scheme| + 3, u.user, u.host, u.port);
      var b := ScanFrom(a, |u.scheme| + 3, auth);
      sc := TailScan(b, |u.scheme| + 3 + |auth|, u.tail);
      assert Compose(u) == (u.scheme + "://") + (auth + TailText(u.tail));
      ScanAppend(s0, 0, u.scheme + "://", auth + TailText(u.tail));
      ScanAppend(a, |u.scheme| + 3, auth, TailText(u.tail));
    } else if u.Origin? {
      FirstPathChar(u.tail);
      sc := TailScan(s0, 0, u.tail);
    } else {
      AuthorityScan(s0, 0, None, u.host, Some(u.digits));
      sc := ScanFrom(s0, 0, Compose(u));
    }
  }

  lemma FirstPathChar(t: Tail)
    requires t.path != [] && (t.path[0] == '/' || t.path[0] == '*')
    ensures ParseUrlChar(ReqSpacesBeforeUrl, t.path[0]) == ReqPath
  {}

  lemma BareHostSize(host: HostText)
    requires WellFormedHost(host)
    ensures |BareHost(host)| > 0
  {}

  /** Splitting the authority and putting the tail are independent. */
  lemma SplitTail(fields: map<UrlField, Range>, off: nat, tail: Tail, h: HostScan)
    ensures SplitHost(PutTail(fields, off, tail), h) == PutTail(SplitHost(fields, h), off, tail)
  {
    hide After, Size, Put, SplitHost;
    var q := off + |tail.path| + 1;
    var f := off + |tail.path| + |After('?', tail.query)| + 1;
    var m1 := Put(fields, PATH, off, |tail.path|);
    var m2 := Put(m1, QUERY, q, Size(tail.query));
    SplitPut(fields, PATH, off, |tail.path|, h);
    SplitPut(m1, QUERY, q, Size(tail.query), h);
    SplitPut(m2, FRAGMENT, f, Size(tail.fragment), h);
  }

  lemma SplitPut(fields: map<UrlField, Range>, f: UrlField, off: nat, n: nat, h: HostScan)
    requires f == PATH || f == QUERY || f == FRAGMENT
    ensures SplitHost(Put(fields, f, off, n), h) == Put(SplitHost(fields, h), f, off, n)
  {}

  lemma SplitAuthority(base: map<UrlField, Range>, pos: nat, user: Option<seq<char>>, host: HostText,
                       port: Option<seq<char>>, h: HostScan, r: Range)
    requires HOST !in base && PORT !in base && USERINFO !in base
    requires (port.Some? ==> port.value != []) && |BareHost(host)| > 0
    requires var at := pos + |UserWritten(user)|;
             h == HostScan(h.s, Range(if host.V6? then at + 1 else at, |BareHost(host)|),
                           if port.Some? then Some(Range(at + |HostWritten(host)| + 1, |port.value|)) else None,
                           if Size(user) > 0 then Some(Range(pos, Size(user))) else None)
    ensures SplitHost(base[HOST := r], h) == PutAuthority(base, pos, user, host, port)
  {
    hide HostWritten, UserWritten, BareHost;
  }

  /** Splitting the authority of a composed URL puts its components in place. */
  lemma SplitPlaces(base: map<UrlField, Range>, pos: nat, user: Option<seq<char>>, host: HostText,
                    port: Option<seq<char>>, tail: Tail, h: HostScan)
    requires HOST !in base && PORT !in base && USERINFO !in base
    requires port.Some? ==> port.value != []
    requires WellFormedHost(host)
    requires var at := pos + |UserWritten(user)|;
             h == HostScan(h.s, Range(if host.V6? then at + 1 else at, |BareHost(host)|),
                           if port.Some? then Some(Range(at + |HostWritten(host)| + 1, |port.value|)) else None,
                           if Size(user) > 0 then Some(Range(pos, Size(user))) else None)
    ensures var n := |AuthorityText(user, host, port)|;
            SplitHost(PutTail(base[HOST := Range(pos, n)], pos + n, tail), h)
            == PutTail(PutAuthority(base, pos, user, host, port), pos + n, tail)
  {
    hide HostWritten, UserWritten, BareHost, After, WellFormedHost, PutTail, PutAuthority, SplitHost;
    var n := |AuthorityText(user, host, port)|;
    BareHostSize(host);
    SplitAuthority(base, pos, user, host, port, h, Range(pos, n));
    SplitTail(base[HOST := Range(pos, n)], pos + n, tail, h);
  }

  /** The host result of a composed URL with an authority. */
  lemma ComposedHost(u: Url, sc: Scan)
    requires WellFormed(u) && !u.Origin? && |Compose(u)| <= 0xffff
             && sc == ScanFrom(ScanStart(u.Connect?), 0, Compose(u))
    requires Scanned(u, sc)
    ensures HostResult(Compose(u), sc, u.Connect?) == Some(Places(u))
  {
    hide ScanFrom, HostFrom, AllDigits, AuthorityText, HostWritten, UserWritten, After, SplitHost, PutAuthority;
    ScanInBounds0(Compose(u), u.Connect?);
    if u.Absolute? {
      var a := |u.scheme| + 3;
      var auth := AuthorityText(u.user, u.host, u.port);
      assert sc.fields[HOST] == Range(a, |auth|);
      assert RangeOf(Compose(u), sc.fields[HOST]) == auth;
      var h := AuthoritySplit(a, u.user, u.host, u.port);
      SplitPlaces(map[SCHEMA := Range(0, |u.scheme|)], a, u.user, u.host, u.port, u.tail, h);
    } else {
      assert RangeOf(Compose(u), sc.fields[HOST]) == Compose(u);
      var h := AuthoritySplit(0, None, u.host, Some(u.digits));
      SplitPlaces(map[], 0, None, u.host, Some(u.digits), Tail([], None, None), h);
    }
  }

  /** The text of a URL up to its port digits, and behind them. */
  function BeforePort(u: Url): seq<char> {
    match u
    case Absolute(scheme, user, host, _, _) => scheme + ("://" + (UserWritten(user) + (HostWritten(host) + [':'])))
    case Connect(host, _) => HostWritten(host) + [':']
    case Origin(_) => []
  }

  function AfterPort(u: Url): seq<char> { if u.Absolute? then TailText(u.tail) else [] }

  lemma PortText(u: Url)
    requires PortDigits(u) != []
    ensures Compose(u) == BeforePort(u) + PortDigits(u) + AfterPort(u)
  {
    hide HostWritten, UserWritten, TailText;
    if u.Absolute? {
      Reassociate(u.scheme, "://", UserWritten(u.user), HostWritten(u.host), [':'], u.port.value, TailText(u.tail));
    } else {
      assert UserWritten(None) == [] by { NoUser(); }
      assert ([':'] + u.digits) == After(':', Some(u.digits));
    }
  }

  lemma NoUser()
    ensures UserWritten(None) == []
  {}

  lemma Reassociate(a: seq<char>, b: seq<char>, c: seq<char>, d: seq<char>, e: seq<char>, f: seq<char>, g: seq<char>)
    ensures a + (b + ((c + (d + (e + f))) + g)) == (a + (b + (c + (d + e)))) + f + g
  {
    assert (c + (d + (e + f))) == (c + (d + e)) + f;
    assert b + (((c + (d + e)) + f) + g) == (b + (c + (d + e))) + (f + g);
  }

  lemma PortRange(u: Url)
    requires PortDigits(u) != []
    ensures PORT in Places(u) && Places(u)[PORT] == Range(|BeforePort(u)|, |PortDigits(u)|)
  {
    NoUser();
    hide HostWritten, UserWritten, BareHost, After;
  }

  /** Which fields a composed URL has. */
  lemma PlacesSet(u: Url)
    requires WellFormed(u)
    ensures AllDigits(PortDigits(u)) && (PORT in Places(u) <==> PortDigits(u) != [])
    ensures SCHEMA in Places(u) ==> HOST in Places(u)
    ensures u.Connect? ==> Places(u).Keys == {HOST, PORT}
  {
    if !u.Origin? { BareHostSize(u.host); }
    hide HostWritten, UserWritten, BareHost, After, WellFormedTail, WellFormedHost, AllDigits;
  }

  lemma RangeBetween(a: seq<char>, b: seq<char>, c: seq<char>)
    ensures InBounds(Range(|a|, |b|), |a + b + c|) && RangeOf(a + b + c, Range(|a|, |b|)) == b
  {}

  /** The port field of a composed URL holds its digits. */
  lemma PortPlace(u: Url)
    requires WellFormed(u)
    ensures AllDigits(PortDigits(u))
    ensures PORT in Places(u) <==> PortDigits(u) != []
    ensures PORT in Places(u) ==> InBounds(Places(u)[PORT], |Compose(u)|)
    ensures PORT in Places(u) ==> RangeOf(Compose(u), Places(u)[PORT]) == PortDigits(u)
    ensures SCHEMA in Places(u) ==> HOST in Places(u)
    ensures u.Connect? ==> Places(u).Keys == {HOST, PORT}
  {
    PlacesSet(u);
    hide Places, Compose, WellFormed, AllDigits, PortDigits;
    if PortDigits(u) != [] {
      PortText(u);
      PortRange(u);
      RangeBetween(BeforePort(u), PortDigits(u), AfterPort(u));
    }
  }

  /**
   * URL parsing inverts composition: each component of a composed URL is found exactly where it was put, and the
   * port is its decimal value; a URL whose port is above 65535 is refused.
   */
  lemma ComposedUrl(u: Url)
    requires WellFormed(u) && |Compose(u)| <= 0xffff
    ensures AllDigits(PortDigits(u)) && DecValue(PortDigits(u)) >= 0
    ensures ParseResult(Compose(u), u.Connect?) ==
            if DecValue(PortDigits(u)) <= 0xffff then Some(Parts(Places(u), DecValue(PortDigits(u)))) else None
  {
    hide ScanFrom, HostFrom, DecValue, PortValue, WellFormed, Places, Compose, HostResult;
    var sc := ComposedScan(u);
    PortPlace(u);
    PortIsDecimal(PortDigits(u));
    EmptyValue();
    ComposedFields(u, sc);
  }

  lemma ComposedFields(u: Url, sc: Scan)
    requires WellFormed(u) && |Compose(u)| <= 0xffff && sc == ScanFrom(ScanStart(u.Connect?), 0, Compose(u))
    requires Scanned(u, sc)
    ensures HostResult(Compose(u), sc, u.Connect?) == Some(Places(u))
    ensures Compose(u) != [] && (SCHEMA in sc.fields ==> HOST in sc.fields)
  {
    hide ScanFrom, AuthorityText, ParseUrlChar;
    if u.Origin? {
      ScanInBounds0(Compose(u), false);
    } else {
      hide TailText;
      ComposedHost(u, sc);
    }
  }

  lemma EmptyValue()
    ensures DecValue([]) == 0
  {}
}
