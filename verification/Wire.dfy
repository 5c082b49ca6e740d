/** Primitive fields of the durable format. An encoder `PutX(x, tail)` writes a field in front
    of what follows it; a decoder `GetX(s)` reads one field off the front and returns the rest,
    which is the source's cursor seen as the bytes still unread. */
module Wire {
  import opened Types
  import opened Endian

  const MAX_COUNT: nat := 0x40_0000
  const MAX_STRING: nat := 0x40_0000

  datatype Fault =
    | Unwritable
    | Truncated | InvalidBool | NonFinite | StringTooLarge | CountTooLarge | InvalidEnum
    | UnsupportedVersion | TooShort | BadMagic | PayloadTooLarge | LengthMismatch
    | ChecksumMismatch | PendingNotAuthorized | TrailingGarbage
    | DuplicateService | ZeroSlots | UnknownService | DuplicateActive | NullAuthority

  datatype Parsed<+T> = Ok(value: T, rest: Bytes) | Bad(fault: Fault) {
    predicate IsFailure() { Bad? }

    function PropagateFailure<U>(): Parsed<U>
      requires Bad?
    {
      Bad(fault)
    }

    function Extract(): (T, Bytes)
      requires Ok?
    {
      (value, rest)
    }
  }

  // ----- fields ----------------------------------------------------------------------

  function PutU8(v: u8, tail: Bytes): (s: Bytes)
    ensures GetU8(s) == Ok(v, tail)
  {
    [v] + tail
  }

  function GetU8(s: Bytes): Parsed<u8> {
    if |s| < 1 then Bad(Truncated) else Ok(s[0], s[1..])
  }

  function PutU32(v: u32, tail: Bytes): (s: Bytes)
    ensures GetU32(s) == Ok(v, tail)
  {
    WidthFacts();
    LittleEndianRead(4, v);
    var s := LittleEndian(4, v) + tail;
    assert s[..4] == LittleEndian(4, v) && s[4..] == tail;
    s
  }

  function GetU32(s: Bytes): Parsed<u32> {
    WidthFacts();
    if |s| < 4 then Bad(Truncated) else Ok(FromLittleEndian(s[..4]), s[4..])
  }

  function PutU64(v: u64, tail: Bytes): (s: Bytes)
    ensures GetU64(s) == Ok(v, tail)
  {
    WidthFacts();
    LittleEndianRead(8, v);
    var s := LittleEndian(8, v) + tail;
    assert s[..8] == LittleEndian(8, v) && s[8..] == tail;
    s
  }

  function GetU64(s: Bytes): Parsed<u64> {
    WidthFacts();
    if |s| < 8 then Bad(Truncated) else Ok(FromLittleEndian(s[..8]), s[8..])
  }

  lemma IntegersCanonical(s: Bytes)
    ensures GetU8(s).Ok? ==> PutU8(GetU8(s).value, GetU8(s).rest) == s
    ensures GetU32(s).Ok? ==> PutU32(GetU32(s).value, GetU32(s).rest) == s
    ensures GetU64(s).Ok? ==> PutU64(GetU64(s).value, GetU64(s).rest) == s
  {
    if |s| >= 4 {
      LittleEndianWritten(s[..4]);
    }
    if |s| >= 8 {
      LittleEndianWritten(s[..8]);
    }
  }

  function PutBool(v: bool, tail: Bytes): (s: Bytes)
    ensures GetBool(s) == Ok(v, tail)
  {
    PutU8(if v then 1 else 0, tail)
  }

  function GetBool(s: Bytes): (r: Parsed<bool>)
  {
    var (v, s) :- GetU8(s);
    if v > 1 then Bad(InvalidBool) else Ok(v == 1, s)
  }

  /** An enumeration byte, checked against the number of its constants. */
  function GetBelow(n: nat, s: Bytes): (r: Parsed<u8>)
    ensures r.Ok? ==> r.value < n && PutU8(r.value, r.rest) == s
  {
    var (v, s') :- GetU8(s);
    if v >= n then Bad(InvalidEnum) else Ok(v, s')
  }

  function PutDouble(v: DoubleBits, tail: Bytes): Bytes {
    PutU64(v, tail)
  }

  function GetDouble(s: Bytes): Parsed<DoubleBits> {
    var (v, s) :- GetU64(s);
    if IsFinite(v) then Ok(v, s) else Bad(NonFinite)
  }

  /** The source casts the length to 32 bits; it refuses longer strings before that matters. */
  function PutString(v: Bytes, tail: Bytes): Bytes {
    PutU32(|v| % U32_LIMIT, v + tail)
  }

  function GetString(s: Bytes): Parsed<Bytes> {
    var (n, s) :- GetU32(s);
    if n > MAX_STRING then Bad(StringTooLarge)
    else if |s| < n then Bad(Truncated)
    else Ok(s[..n], s[n..])
  }

  function PutSigned(v: i64, tail: Bytes): Bytes {
    PutU64(if v < 0 then v + U64_LIMIT else v, tail)
  }

  function GetSigned(s: Bytes): Parsed<i64> {
    var (v, s) :- GetU64(s);
    Ok(if v < I64_LIMIT then v else v - U64_LIMIT, s)
  }

  lemma ScalarsWritten(d: DoubleBits, t: Bytes, w: i64, tail: Bytes)
    ensures IsFinite(d) ==> GetDouble(PutDouble(d, tail)) == Ok(d, tail)
    ensures |t| <= MAX_STRING ==> GetString(PutString(t, tail)) == Ok(t, tail)
    ensures GetSigned(PutSigned(w, tail)) == Ok(w, tail)
  {
    if |t| <= MAX_STRING {
      assert (t + tail)[..|t|] == t && (t + tail)[|t|..] == tail;
    }
  }

  lemma ScalarsCanonical(s: Bytes)
    ensures GetBool(s).Ok? ==> PutBool(GetBool(s).value, GetBool(s).rest) == s
    ensures GetDouble(s).Ok? ==> IsFinite(GetDouble(s).value) && PutDouble(GetDouble(s).value, GetDouble(s).rest) == s
    ensures GetString(s).Ok? ==>
            |GetString(s).value| <= MAX_STRING && PutString(GetString(s).value, GetString(s).rest) == s
    ensures GetSigned(s).Ok? ==> PutSigned(GetSigned(s).value, GetSigned(s).rest) == s
  {
    hide PutU8, GetU8, PutU32, GetU32, PutU64, GetU64;
    IntegersCanonical(s);
    if GetString(s).Ok? {
      var n := GetU32(s).value;
      var body := GetU32(s).rest;
      assert body[..n] + body[n..] == body;
    }
  }

  // ----- runs of 64-bit words --------------------------------------------------------

  function PutWords(vs: seq<u64>, tail: Bytes): Bytes {
    if vs == [] then tail else PutU64(vs[0], PutWords(vs[1..], tail))
  }

  function GetWords(n: nat, s: Bytes): (r: Parsed<seq<u64>>)
    ensures r.Ok? ==> |r.value| == n
  {
    if n == 0 then Ok([], s)
    else
      var (v, s) :- GetU64(s);
      var (vs, s) :- GetWords(n - 1, s);
      Ok([v] + vs, s)
  }

  lemma {:induction false} WordsWritten(vs: seq<u64>, tail: Bytes)
    ensures GetWords(|vs|, PutWords(vs, tail)) == Ok(vs, tail)
  {
    if vs != [] {
      WordsWritten(vs[1..], tail);
      assert [vs[0]] + vs[1..] == vs;
    }
  }

  lemma {:induction false} WordsCanonical(n: nat, s: Bytes)
    ensures GetWords(n, s).Ok? ==> PutWords(GetWords(n, s).value, GetWords(n, s).rest) == s
  {
    if n != 0 && GetWords(n, s).Ok? {
      IntegersCanonical(s);
      WordsCanonical(n - 1, GetU64(s).rest);
      var r := GetWords(n, s);
      assert r.value[1..] == GetWords(n - 1, GetU64(s).rest).value;
    }
  }

  // ----- lists and options -----------------------------------------------------------

  type Putter<!T> = (T, Bytes) -> Bytes
  type Getter<T> = Bytes -> Parsed<T>

  /** `get` reads back whatever `put` wrote, for the values that `fits` admits. */
  ghost predicate ReadsBack<T(!new)>(put: Putter<T>, get: Getter<T>, fits: T -> bool) {
    forall x, tail :: fits(x) ==> get(put(x, tail)) == Ok(x, tail)
  }

  /** What `get` accepts is exactly what `put` would have written for its result. */
  ghost predicate Canonical<T>(put: Putter<T>, get: Getter<T>, fits: T -> bool) {
    forall s :: get(s).Ok? ==> fits(get(s).value) && put(get(s).value, get(s).rest) == s
  }

  function PutAll<T>(put: Putter<T>, xs: seq<T>, tail: Bytes): Bytes {
    if xs == [] then tail else put(xs[0], PutAll(put, xs[1..], tail))
  }

  function GetAll<T>(get: Getter<T>, n: nat, s: Bytes): (r: Parsed<seq<T>>)
    ensures r.Ok? ==> |r.value| == n
    decreases n
  {
    if n == 0 then Ok([], s)
    else
      var (x, s) :- get(s);
      var (xs, s) :- GetAll(get, n - 1, s);
      Ok([x] + xs, s)
  }

  lemma {:induction false} AllWritten<T(!new)>(put: Putter<T>, get: Getter<T>, fits: T -> bool, xs: seq<T>, tail: Bytes)
    requires ReadsBack(put, get, fits)
    requires forall x :: x in xs ==> fits(x)
    ensures GetAll(get, |xs|, PutAll(put, xs, tail)) == Ok(xs, tail)
  {
    if xs != [] {
      AllWritten(put, get, fits, xs[1..], tail);
      assert [xs[0]] + xs[1..] == xs;
    }
  }

  lemma {:induction false} AllCanonical<T>(put: Putter<T>, get: Getter<T>, fits: T -> bool, n: nat, s: Bytes)
    requires Canonical(put, get, fits)
    ensures var r := GetAll(get, n, s);
            r.Ok? ==> (forall x :: x in r.value ==> fits(x)) && PutAll(put, r.value, r.rest) == s
    decreases n
  {
    if n != 0 && GetAll(get, n, s).Ok? {
      AllCanonical(put, get, fits, n - 1, get(s).rest);
      var r := GetAll(get, n, s);
      assert r.value[1..] == GetAll(get, n - 1, get(s).rest).value;
    }
  }

  /** A counted list; the source casts the count to 32 bits. */
  function PutList<T>(put: Putter<T>, xs: seq<T>, tail: Bytes): Bytes {
    PutU32(|xs| % U32_LIMIT, PutAll(put, xs, tail))
  }

  function GetList<T>(get: Getter<T>, s: Bytes): Parsed<seq<T>> {
    var (n, s) :- GetU32(s);
    if n > MAX_COUNT then Bad(CountTooLarge) else GetAll(get, n, s)
  }

  lemma ListWritten<T(!new)>(put: Putter<T>, get: Getter<T>, fits: T -> bool, xs: seq<T>, tail: Bytes)
    requires ReadsBack(put, get, fits)
    requires |xs| <= MAX_COUNT && forall x :: x in xs ==> fits(x)
    ensures GetList(get, PutList(put, xs, tail)) == Ok(xs, tail)
  {
    hide PutU32, GetU32, PutAll, GetAll, ReadsBack;
    AllWritten(put, get, fits, xs, tail);
  }

  lemma ListCanonical<T>(put: Putter<T>, get: Getter<T>, fits: T -> bool, s: Bytes)
    requires Canonical(put, get, fits)
    ensures var r := GetList(get, s);
            r.Ok? ==>
              |r.value| <= MAX_COUNT && (forall x :: x in r.value ==> fits(x)) && PutList(put, r.value, r.rest) == s
  {
    hide PutU32, GetU32, PutAll, GetAll, Canonical;
    IntegersCanonical(s);
    if GetList(get, s).Ok? {
      AllCanonical(put, get, fits, GetU32(s).value, GetU32(s).rest);
    }
  }

  function PutOpt<T>(put: Putter<T>, o: Option<T>, tail: Bytes): Bytes {
    PutBool(o.Some?, if o.Some? then put(o.value, tail) else tail)
  }

  function GetOpt<T>(get: Getter<T>, s: Bytes): Parsed<Option<T>> {
    var (present, s) :- GetBool(s);
    if !present then Ok(None, s)
    else
      var (x, s) :- get(s);
      Ok(Some(x), s)
  }

  lemma OptWritten<T(!new)>(put: Putter<T>, get: Getter<T>, fits: T -> bool, o: Option<T>, tail: Bytes)
    requires ReadsBack(put, get, fits)
    requires o.Some? ==> fits(o.value)
    ensures GetOpt(get, PutOpt(put, o, tail)) == Ok(o, tail)
  {
  }

  lemma OptCanonical<T>(put: Putter<T>, get: Getter<T>, fits: T -> bool, s: Bytes)
    requires Canonical(put, get, fits)
    ensures var r := GetOpt(get, s);
            r.Ok? ==> (r.value.Some? ==> fits(r.value.value)) && PutOpt(put, r.value, r.rest) == s
  {
    ScalarsCanonical(s);
  }
}
