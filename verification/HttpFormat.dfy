/** `HttpRequest`: the setters and the printer of requests. */
module HttpFormat {
  import opened HttpTypes
  import opened HttpFields
  import opened HttpFraming

  /** `std::to_string` of a size. */
  function ToDecimal(n: nat): (ds: seq<char>)
    ensures ds != []
    decreases n
  {
    (if n < 10 then [] else ToDecimal(n / 10)) + [('0' as int + n % 10) as char]
  }

  lemma {:induction false} DecimalRoundTrip(n: nat)
    ensures AllDigits(ToDecimal(n)) && DecValue(ToDecimal(n)) == n
    decreases n
  {
    var init := if n < 10 then [] else ToDecimal(n / 10);
    assert ToDecimal(n)[..|ToDecimal(n)| - 1] == init;
    if n >= 10 { DecimalRoundTrip(n / 10); }
  }

  /** It has no leading zeros. */
  lemma {:induction false} NoLeadingZero(n: nat)
    ensures n > 0 ==> ToDecimal(n)[0] != '0'
    decreases n
  {
    if n >= 10 {
      NoLeadingZero(n / 10);
      assert ToDecimal(n)[0] == ToDecimal(n / 10)[0];
    }
  }

  /** The order of `std::map` keys. */
  predicate Less(a: seq<char>, b: seq<char>) {
    if b == [] then false
    else if a == [] then true
    else a[0] < b[0] || (a[0] == b[0] && Less(a[1..], b[1..]))
  }

  /** The first character that differs decides, by its code; a strict beginning comes first. */
  lemma {:induction false} LessLiterally(a: seq<char>, b: seq<char>, k: nat)
    requires k <= |a| && k <= |b| && a[..k] == b[..k]
    ensures k < |a| && k < |b| && a[k] as int < b[k] as int ==> Less(a, b) && !Less(b, a)
    ensures k == |a| < |b| ==> Less(a, b) && !Less(b, a)
  {
    if k > 0 {
      assert a[0] == a[..k][0] == b[..k][0] == b[0];
      assert a[1..][..k - 1] == a[..k][1..] && b[1..][..k - 1] == b[..k][1..];
      LessLiterally(a[1..], b[1..], k - 1);
    }
  }

  lemma {:induction false} LessStrict(a: seq<char>, b: seq<char>)
    ensures !Less(a, a) && (Less(a, b) || Less(b, a) || a == b)
  {
    if a != [] { LessStrict(a[1..], if b == [] then b else b[1..]); }
    if a != [] && b != [] && a[1..] == b[1..] && a[0] == b[0] { assert a == [a[0]] + a[1..] == b; }
  }

  lemma {:induction false} LessTransitive(a: seq<char>, b: seq<char>, c: seq<char>)
    requires Less(a, b) && Less(b, c)
    ensures Less(a, c)
  {
    if a != [] && a[0] == b[0] && b[0] == c[0] { LessTransitive(a[1..], b[1..], c[1..]); }
  }

  /** The entries of a `std::map`, in the order of iteration. */
  ghost predicate Sorted(fs: seq<Field>) {
    forall i, j :: 0 <= i < j < |fs| ==> Less(fs[i].name, fs[j].name)
  }

  /** The map that a list of entries stands for. */
  function AsMap(fs: seq<Field>): map<seq<char>, seq<char>> {
    if fs == [] then map[] else AsMap(fs[..|fs| - 1])[fs[|fs| - 1].name := fs[|fs| - 1].value]
  }

  /** In a sorted list the keys are distinct. */
  lemma SortedDistinct(fs: seq<Field>)
    requires Sorted(fs)
    ensures forall i, j :: 0 <= i < j < |fs| ==> fs[i].name != fs[j].name
  {
    forall i, j | 0 <= i < j < |fs| ensures fs[i].name != fs[j].name {
      LessStrict(fs[i].name, fs[i].name);
    }
  }

  /** The value of a request object. */
  datatype RequestValue = RequestValue(verb: Method, url: seq<char>, query: seq<char>, fields: seq<Field>,
                                       body: seq<char>)

  /** The request target: the URL, and the query if there is one. */
  function Target(r: RequestValue): seq<char> {
    r.url + if r.query != [] then ['?'] + r.query else []
  }

  function RequestLine(r: RequestValue): seq<char> {
    (MethodString(r.verb) + [' ']) + (Target(r) + " HTTP/1.1\r\n")
  }

  function Head(r: RequestValue): seq<char> { RequestLine(r) + (FieldLines(r.fields) + CRLF) }

  /** A request on the wire (section 3 of RFC 7230). */
  function Print(r: RequestValue): seq<char> { Head(r) + r.body }

  /** The methods a request can have. */
  predicate Printable(m: Method) { m == GET || m == POST || m == PUT || m == DELETE }

  function LengthField(body: seq<char>): Field { Field("Content-Length", ToDecimal(|body|)) }

  /** The only framing header is the Content-Length that belongs to the body. */
  ghost predicate Framed(fields: seq<Field>, body: seq<char>) {
    && (forall f :: f in fields ==> IsPlainField(f) || f == LengthField(body))
    && (body != [] ==> LengthField(body) in fields)
  }

  /** The word of the method and a space, letter by letter. */
  predicate StartsWithWord(m: Method, text: seq<char>) {
    match m
    case GET => "GET " <= text
    case POST => "POST " <= text
    case PUT => "PUT " <= text
    case DELETE => "DELETE " <= text
    case _ => false
  }

  /** A printed request starts with its method, spelled out, and goes on with its target and the version. */
  lemma PrintedLine(r: RequestValue)
    requires Printable(r.verb)
    ensures StartsWithWord(r.verb, Print(r))
    ensures Print(r)[|MethodString(r.verb)| + 1..] ==
            Target(r) + " HTTP/1.1\r\n" + FieldLines(r.fields) + "\r\n" + r.body
  {
    hide Target, FieldLines;
    var rest := (Target(r) + " HTTP/1.1\r\n") + (FieldLines(r.fields) + CRLF) + r.body;
    assert Print(r) == (MethodString(r.verb) + [' ']) + rest;
    assert "\r\n" == CRLF;
  }

  class HttpRequest {
    var mUrl: seq<char>
    var mQuery: seq<char>
    var mBody: seq<char>
    var mMethod: Method
    var mHeadField: seq<Field>

    ghost predicate Valid()
      reads this
    {
      Sorted(mHeadField) && Printable(mMethod)
    }

    ghost function Value(): RequestValue
      reads this
    {
      RequestValue(mMethod, mUrl, mQuery, mHeadField, mBody)
    }

    constructor ()
      ensures Valid() && Value() == RequestValue(GET, [], [], [], [])
    {
      mUrl, mQuery, mBody, mHeadField, mMethod := [], [], [], [], GET;
    }

    method SetMethod(m: Method)
      requires Valid() && Printable(m)
      modifies this`mMethod
      ensures Valid() && mMethod == m
    {
      mMethod := m;
    }

    method SetUrl(url: seq<char>)
      requires Valid()
      modifies this`mUrl
      ensures Valid() && mUrl == url
    {
      mUrl := url;
    }

    method SetQuery(query: seq<char>)
      requires Valid()
      modifies this`mQuery
      ensures Valid() && mQuery == query
    {
      mQuery := query;
    }

    /** `mHeadField[field] = value`, keeping the entries in order. */
    method AddHeadValue(field: seq<char>, value: seq<char>)
      requires Valid()
      modifies this`mHeadField
      ensures Valid() && AsMap(mHeadField) == AsMap(old(mHeadField))[field := value]
      ensures forall f :: f in mHeadField <==> f == Field(field, value) || (f in old(mHeadField) && f.name != field)
    {
      var i := 0;
      while i < |mHeadField| && Less(mHeadField[i].name, field)
        invariant i <= |mHeadField|
        invariant forall j :: 0 <= j < i ==> Less(mHeadField[j].name, field)
      {
        i := i + 1;
      }
      if i < |mHeadField| && mHeadField[i].name == field {
        ReplaceEntry(mHeadField, i, value);
        ReplaceMember(mHeadField, i, value);
        mHeadField := mHeadField[i := Field(field, value)];
      } else {
        InsertEntry(mHeadField, i, Field(field, value));
        InsertMember(mHeadField, i, Field(field, value));
        mHeadField := mHeadField[..i] + [Field(field, value)] + mHeadField[i..];
      }
    }

    /** The body, and the Content-Length that goes with it. */
    method SetBody(body: seq<char>)
      requires Valid()
      modifies this`mBody, this`mHeadField
      ensures Valid() && mBody == body
      ensures AsMap(mHeadField) == AsMap(old(mHeadField))["Content-Length" := ToDecimal(|body|)]
      ensures old(Framed(mHeadField, mBody)) ==> Framed(mHeadField, mBody)
    {
      mBody := body;
      AddHeadValue("Content-Length", ToDecimal(|body|));
    }

    /** The request line. */
    method FirstLine() returns (ret: seq<char>)
      ensures ret == RequestLine(Value())
    {
      hide MethodString;
      ret := [];
      ret := ret + MethodString(mMethod);
      ret := ret + " ";
      ret := ret + mUrl;
      if mQuery != [] {
        ret := ret + "?";
        ret := ret + mQuery;
        LineParts(MethodString(mMethod), mUrl, ['?'] + mQuery);
      } else {
        LineParts(MethodString(mMethod), mUrl, []);
      }
      ret := ret + " HTTP/1.1\r\n";
    }

    /** Appends the header lines. */
    method HeaderLines(ret0: seq<char>) returns (ret: seq<char>)
      ensures ret == ret0 + FieldLines(mHeadField)
    {
      hide FieldLine;
      ret := ret0;
      for i := 0 to |mHeadField|
        invariant ret == ret0 + FieldLines(mHeadField[..i])
      {
        assert mHeadField[..i + 1][..i] == mHeadField[..i];
        ghost var before := ret;
        ret := ret + mHeadField[i].name;
        ret := ret + ": ";
        ret := ret + mHeadField[i].value;
        ret := ret + "\r\n";
        LinePieces(before, mHeadField[i].name, mHeadField[i].value);
      }
      assert mHeadField[..|mHeadField|] == mHeadField;
    }

    method GetResult() returns (ret: seq<char>)
      requires Valid()
      ensures ret == Print(Value())
      ensures StartsWithWord(mMethod, ret)
    {
      hide RequestLine, FieldLines;
      ret := FirstLine();
      ret := HeaderLines(ret);
      ret := ret + "\r\n";
      ret := ret + mBody;
      PrintedLine(Value());
      HeadParts(RequestLine(Value()), FieldLines(mHeadField));
    }
  }

  lemma LineParts(m: seq<char>, url: seq<char>, query: seq<char>)
    ensures (((m + " ") + url) + query) + " HTTP/1.1\r\n" == (m + [' ']) + ((url + query) + " HTTP/1.1\r\n")
  {}

  lemma LinePieces(before: seq<char>, k: seq<char>, v: seq<char>)
    ensures (((before + k) + ": ") + v) + "\r\n" == before + FieldLine(k, v)
  {
    assert ": " == [':'] + [' '];
  }

  lemma HeadParts(line: seq<char>, fields: seq<char>)
    ensures (line + fields) + "\r\n" == line + (fields + CRLF)
  {}

  lemma ReplaceMember(fs: seq<Field>, i: nat, v: seq<char>)
    requires Sorted(fs) && i < |fs|
    ensures var g := Field(fs[i].name, v);
            forall f :: f in fs[i := g] <==> f == g || (f in fs && f.name != g.name)
  {
    SortedDistinct(fs);
    var g := Field(fs[i].name, v);
    assert fs[i := g][i] == g;
    forall f | f in fs && f.name != g.name ensures f in fs[i := g] {
      var j :| 0 <= j < |fs| && fs[j] == f;
      assert fs[i := g][j] == f;
    }
  }

  lemma InsertMember(fs: seq<Field>, i: nat, g: Field)
    requires i <= |fs| && Sorted(fs[..i] + [g] + fs[i..])
    ensures forall f :: f in fs[..i] + [g] + fs[i..] <==> f == g || (f in fs && f.name != g.name)
  {
    var gs := fs[..i] + [g] + fs[i..];
    SortedDistinct(gs);
    assert gs[i] == g && fs == fs[..i] + fs[i..];
    forall f | f in fs ensures f in gs && f.name != g.name {
      var j :| 0 <= j < |fs| && fs[j] == f;
      assert gs[if j < i then j else j + 1] == f;
    }
  }

  lemma {:induction false} ReplaceEntry(fs: seq<Field>, i: nat, v: seq<char>)
    requires Sorted(fs) && i < |fs|
    ensures Sorted(fs[i := Field(fs[i].name, v)])
    ensures AsMap(fs[i := Field(fs[i].name, v)]) == AsMap(fs)[fs[i].name := v]
  {
    var gs := fs[i := Field(fs[i].name, v)];
    var last := |fs| - 1;
    if i == last {
      assert gs[..last] == fs[..last];
    } else {
      ReplaceEntry(fs[..last], i, v);
      assert gs[..last] == fs[..last][i := Field(fs[i].name, v)];
      SortedDistinct(fs);
    }
  }

  lemma InsertSorted(fs: seq<Field>, i: nat, f: Field)
    requires Sorted(fs) && i <= |fs| && (forall j :: 0 <= j < i ==> Less(fs[j].name, f.name))
    requires i < |fs| ==> !Less(fs[i].name, f.name) && fs[i].name != f.name
    ensures Sorted(fs[..i] + [f] + fs[i..])
    ensures forall j :: 0 <= j < |fs| ==> fs[j].name != f.name
  {
    hide Less;
    LessStrict(f.name, f.name);
    forall j | i <= j < |fs| ensures Less(f.name, fs[j].name) {
      LessStrict(f.name, fs[i].name);
      if i < j { LessTransitive(f.name, fs[i].name, fs[j].name); }
    }
  }

  lemma {:induction false} InsertMap(fs: seq<Field>, i: nat, f: Field)
    requires i <= |fs| && forall j :: 0 <= j < |fs| ==> fs[j].name != f.name
    ensures AsMap(fs[..i] + [f] + fs[i..]) == AsMap(fs)[f.name := f.value]
  {
    var gs := fs[..i] + [f] + fs[i..];
    if i == |fs| {
      assert gs[..|fs|] == fs;
    } else {
      var init := fs[..|fs| - 1];
      assert gs[..|gs| - 1] == init[..i] + [f] + init[i..];
      InsertMap(init, i, f);
    }
  }

  lemma InsertEntry(fs: seq<Field>, i: nat, f: Field)
    requires Sorted(fs) && i <= |fs| && (forall j :: 0 <= j < i ==> Less(fs[j].name, f.name))
    requires i < |fs| ==> !Less(fs[i].name, f.name) && fs[i].name != f.name
    ensures Sorted(fs[..i] + [f] + fs[i..])
    ensures AsMap(fs[..i] + [f] + fs[i..]) == AsMap(fs)[f.name := f.value]
  {
    hide Less, Sorted, AsMap;
    InsertSorted(fs, i, f);
    InsertMap(fs, i, f);
  }
}
