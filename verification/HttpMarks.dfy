/** The data marks of `http_parser_execute`: where data that is still to be delivered starts. */
module HttpMarks {
  import opened Options
  import opened HttpTypes
  import opened HttpInvariants

  /** Where each kind of data that is still to be delivered starts; None is the null pointer. */
  datatype Marks = Marks(field: Option<nat>, value: Option<nat>, url: Option<nat>, body: Option<nat>,
                         status: Option<nat>)

  const NO_MARKS := Marks(None, None, None, None, None)

  function Slice(kind: DataKind, mark: Option<nat>, data: seq<char>, p: nat): Option<Event>
    requires p <= |data|
  {
    if mark.Some? && mark.value <= p then Some(Data(kind, data[mark.value..p])) else None
  }

  /** The trace so far, with the bytes from a live mark up to `p` counted as delivered. */
  function Joined(calls: seq<Event>, m: Marks, data: seq<char>, p: nat): seq<Event>
    requires p <= |data|
  {
    var t1 := PushOpt(Join(calls), Slice(FieldData, m.field, data, p));
    var t2 := PushOpt(t1, Slice(ValueData, m.value, data, p));
    var t3 := PushOpt(t2, Slice(UrlData, m.url, data, p));
    var t4 := PushOpt(t3, Slice(BodyData, m.body, data, p));
    PushOpt(t4, Slice(StatusData, m.status, data, p))
  }

  predicate MayHoldBody(s: State) {
    s == BodyIdentity || s == BodyIdentityEof || s == ChunkData || s == ChunkDataAlmostDone
  }

  predicate MarkIn(mark: Option<nat>, p: nat) { mark.Some? && mark.value <= p }

  /** Exactly the mark of the data in progress is live, so at most one is. */
  predicate MarksFit(s: State, m: Marks, p: nat) {
    match Resumed(s)
    case Some(FieldData) => m == NO_MARKS.(field := m.field) && MarkIn(m.field, p)
    case Some(ValueData) => m == NO_MARKS.(value := m.value) && MarkIn(m.value, p)
    case Some(UrlData) => m == NO_MARKS.(url := m.url) && MarkIn(m.url, p)
    case Some(StatusData) => m == NO_MARKS.(status := m.status) && MarkIn(m.status, p)
    case _ => m == NO_MARKS || (MayHoldBody(s) && m == NO_MARKS.(body := m.body) && MarkIn(m.body, p))
  }

  lemma AdvanceMark(t: seq<Event>, kind: DataKind, data: seq<char>, k: nat, p: nat, q: nat)
    requires k <= p <= q <= |data|
    ensures Push(Push(t, Data(kind, data[k..p])), Data(kind, data[p..q])) == Push(t, Data(kind, data[k..q]))
  {
    PushMerge(t, kind, data[k..p], data[p..q]);
    assert data[k..p] + data[p..q] == data[k..q];
  }

  lemma JoinedNone(calls: seq<Event>, data: seq<char>, p: nat)
    requires p <= |data|
    ensures Joined(calls, NO_MARKS, data, p) == Join(calls)
  {}

  /** The marks when data of kind `kind` is in progress since `k`. */
  function MarkOf(kind: DataKind, k: nat): Marks {
    match kind
    case FieldData => NO_MARKS.(field := Some(k))
    case ValueData => NO_MARKS.(value := Some(k))
    case UrlData => NO_MARKS.(url := Some(k))
    case BodyData => NO_MARKS.(body := Some(k))
    case StatusData => NO_MARKS.(status := Some(k))
  }

  lemma JoinedMark(calls: seq<Event>, kind: DataKind, k: nat, data: seq<char>, p: nat)
    requires k <= p <= |data|
    ensures Joined(calls, MarkOf(kind, k), data, p) == Push(Join(calls), Data(kind, data[k..p]))
  {
    hide Join, Push;
  }

  /** Data in progress grows by the bytes passed over. */
  lemma JoinedExtend(calls: seq<Event>, kind: DataKind, k: nat, data: seq<char>, p: nat, q: nat)
    requires k <= p <= q <= |data|
    ensures Joined(calls, MarkOf(kind, k), data, q) ==
            Push(Joined(calls, MarkOf(kind, k), data, p), Data(kind, data[p..q]))
  {
    hide Join, Push, Joined, MarkOf;
    JoinedMark(calls, kind, k, data, p);
    JoinedMark(calls, kind, k, data, q);
    AdvanceMark(Join(calls), kind, data, k, p, q);
  }

  lemma OneByte(data: seq<char>, p: nat)
    requires p < |data|
    ensures data[p..p + 1] == [data[p]]
  {}

  lemma FieldMark(m: Marks, p: nat) returns (k: nat)
    requires MarksFit(HeaderField, m, p)
    ensures k <= p && m == MarkOf(FieldData, k)
  {
    k := m.field.value;
  }

  lemma FieldMarkFits(k: nat, p: nat)
    requires k <= p
    ensures MarksFit(HeaderField, MarkOf(FieldData, k), p)
  {}

  lemma NoMarkFits(s: State, p: nat)
    requires Resumed(s) == None
    ensures MarksFit(s, NO_MARKS, p)
  {}

  lemma ValueMark(m: Marks, p: nat) returns (k: nat)
    requires MarksFit(HeaderValue, m, p)
    ensures k <= p && m == MarkOf(ValueData, k)
  {
    k := m.value.value;
  }

  lemma ValueMarkFits(k: nat, p: nat)
    requires k <= p
    ensures MarksFit(HeaderValue, MarkOf(ValueData, k), p)
  {}

  /** The marks once the body mark is set at `p`, unless it is already. */
  function BodyMarked(m: Marks, p: nat): Marks {
    if m.body.None? then m.(body := Some(p)) else m
  }

  /** Body bytes from `p` to `q` count as delivered under the body mark. */
  lemma BodyJoined(s: State, calls: seq<Event>, m: Marks, data: seq<char>, p: nat, q: nat)
    requires p <= q <= |data| && MayHoldBody(s) && MarksFit(s, m, p)
    ensures Joined(calls, BodyMarked(m, p), data, q) == Push(Joined(calls, m, data, p), Data(BodyData, data[p..q]))
    ensures MarksFit(s, BodyMarked(m, p), q)
    ensures BodyMarked(m, p) == NO_MARKS.(body := BodyMarked(m, p).body) && MarkIn(BodyMarked(m, p).body, p)
  {
    hide Join, Push, Joined;
    if m.body.Some? {
      JoinedExtend(calls, BodyData, m.body.value, data, p, q);
      JoinedMark(calls, BodyData, m.body.value, data, q);
    } else {
      JoinedNone(calls, data, p);
      JoinedMark(calls, BodyData, p, data, q);
    }
  }

  lemma BodyMarkedFits(s: State, m: Marks, p: nat, q: nat)
    requires p <= q && MayHoldBody(s) && MarksFit(s, m, p)
    ensures BodyMarked(m, p) == NO_MARKS.(body := BodyMarked(m, p).body) && MarkIn(BodyMarked(m, p).body, q)
  {}

  lemma BodyMarkFits(k: nat, p: nat)
    requires k <= p
    ensures MarksFit(ChunkData, MarkOf(BodyData, k), p)
    ensures MarksFit(ChunkDataAlmostDone, MarkOf(BodyData, k), p)
  {}

  /** The marks at the start of a call, for the data the last call stopped in. */
  function StartMarks(s: State): Marks {
    match Resumed(s)
    case Some(kind) => MarkOf(kind, 0)
    case None => NO_MARKS
  }

  lemma StartMarksAre(s: State)
    ensures MarksFit(s, StartMarks(s), 0)
    ensures StartMarks(s) == if Resumed(s).Some? then MarkOf(Resumed(s).value, 0) else NO_MARKS
    ensures Resumed(s) != Some(BodyData)
  {
    hide InUrl;
  }

  lemma StartJoined(s: State, calls: seq<Event>, data: seq<char>)
    requires TailFits(s, Join(calls))
    ensures MarksFit(s, StartMarks(s), 0) && Joined(calls, StartMarks(s), data, 0) == Join(calls)
  {
    hide Join, Joined, Push, MarksFit, StartMarks, MarkOf, Resumed;
    StartMarksAre(s);
    JoinedNone(calls, data, 0);
    if Resumed(s).Some? {
      var kind := Resumed(s).value;
      JoinedMark(calls, kind, 0, data, 0);
      assert data[0..0] == [];
      PushEmpty(Join(calls), kind);
    }
  }

  function Live(mark: Option<nat>): nat { if mark.Some? then 1 else 0 }

  lemma AtMostOne(s: State, m: Marks, p: nat)
    requires MarksFit(s, m, p)
    ensures Live(m.field) + Live(m.value) + Live(m.url) + Live(m.body) + Live(m.status) <= 1
    ensures (m.field.Some? ==> m.field.value <= p) && (m.value.Some? ==> m.value.value <= p)
    ensures (m.url.Some? ==> m.url.value <= p) && (m.body.Some? ==> m.body.value <= p)
    ensures m.status.Some? ==> m.status.value <= p
  {}

  lemma MarkCleared(k: nat)
    ensures MarkOf(UrlData, k).(url := None) == NO_MARKS && MarkOf(FieldData, k).(field := None) == NO_MARKS
    ensures MarkOf(ValueData, k).(value := None) == NO_MARKS && MarkOf(StatusData, k).(status := None) == NO_MARKS
    ensures MarkOf(BodyData, k).(body := None) == NO_MARKS
    ensures MarkOf(UrlData, k).url == Some(k) && MarkOf(FieldData, k).field == Some(k)
    ensures MarkOf(ValueData, k).value == Some(k) && MarkOf(StatusData, k).status == Some(k)
    ensures MarkOf(BodyData, k).body == Some(k)
  {}

  lemma StartMark(k: nat)
    ensures NO_MARKS.(field := Some(k)) == MarkOf(FieldData, k) && NO_MARKS.(value := Some(k)) == MarkOf(ValueData, k)
    ensures NO_MARKS.(status := Some(k)) == MarkOf(StatusData, k)
  {}

  lemma BodyMark(s: State, m: Marks, p: nat)
    requires Resumed(s) == None && MarksFit(s, m, p)
    ensures m == NO_MARKS || (m.body.Some? && m.body.value <= p && m == MarkOf(BodyData, m.body.value))
  {}

  lemma StatusMark(m: Marks, p: nat)
    requires MarksFit(ResStatus, m, p)
    ensures m.status.Some? && m.status.value <= p && m == MarkOf(StatusData, m.status.value)
  {}

  lemma UrlMarkFits(s: State, k: nat, p: nat)
    requires InUrl(s) && k <= p
    ensures MarksFit(s, MarkOf(UrlData, k), p)
  {}

  lemma UrlMark(s: State, m: Marks, p: nat)
    requires InUrl(s) && MarksFit(s, m, p)
    ensures m.url.Some? && m.url.value <= p && m == MarkOf(UrlData, m.url.value)
  {}
}
