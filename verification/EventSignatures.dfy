/** How event signatures are printed, and how a contract's event is found by its signature
    (packages/graph-node/graph/src/util/ethereum.rs). The type names are those of the Solidity Contract ABI
    Specification, section "Types". */
module EventSignatures {
  import opened Common

  datatype ParamType =
    | Address
    | Bytes
    | IntOf(size: nat)
    | UintOf(size: nat)
    | Bool
    | String
    | Array(inner: ParamType)
    | FixedBytes(size: nat)
    | FixedArray(inner: ParamType, length: nat)
    | Tuple(components: seq<ParamType>)

  datatype Input = Input(indexed: bool, kind: ParamType)

  /** An event, as far as its signature is concerned. */
  datatype Event = Event(name: string, inputs: seq<Input>)

  // ---------- Printing

  const DIGITS := "0123456789"

  function Decimal(n: nat): (s: string)
    ensures s != [] && forall c :: c in s ==> c in DIGITS
  {
    if n < 10 then [DIGITS[n]] else Decimal(n / 10) + [DIGITS[n % 10]]
  }

  function EventParamTypeSignature(t: ParamType): string
    decreases t
  {
    match t
    case Address => "address"
    case Bytes => "bytes"
    case IntOf(size) => "int" + Decimal(size)
    case UintOf(size) => "uint" + Decimal(size)
    case Bool => "bool"
    case String => "string"
    case Array(inner) => EventParamTypeSignature(inner) + "[]"
    case FixedBytes(size) => "bytes" + Decimal(size)
    case FixedArray(inner, length) => EventParamTypeSignature(inner) + "[" + Decimal(length) + "]"
    case Tuple(components) => "(" + Joined(components) + ")"
  }

  /** The signatures of `ts`, with commas between them. */
  function Joined(ts: seq<ParamType>): string
    decreases ts
  {
    if ts == [] then ""
    else if |ts| == 1 then EventParamTypeSignature(ts[0])
    else EventParamTypeSignature(ts[0]) + "," + Joined(ts[1..])
  }

  function InputSignature(i: Input): string {
    (if i.indexed then "indexed " else "") + EventParamTypeSignature(i.kind)
  }

  function JoinedInputs(inputs: seq<Input>): string {
    if inputs == [] then ""
    else if |inputs| == 1 then InputSignature(inputs[0])
    else InputSignature(inputs[0]) + "," + JoinedInputs(inputs[1..])
  }

  function EventSignature(e: Event): string {
    e.name + "(" + JoinedInputs(e.inputs) + ")"
  }

  function Kinds(inputs: seq<Input>): seq<ParamType> {
    if inputs == [] then [] else [inputs[0].kind] + Kinds(inputs[1..])
  }

  function AmbiguousEventSignature(e: Event): string {
    e.name + "(" + Joined(Kinds(e.inputs)) + ")"
  }

  // ---------- Words

  predicate IsWordChar(c: char) {
    'a' <= c <= 'z' || '0' <= c <= '9'
  }

  predicate IsWord(s: string) {
    forall c :: c in s ==> IsWordChar(c)
  }

  /** `s` does not go on with a character of a word. */
  predicate EndsWord(s: string) {
    s == [] || !IsWordChar(s[0])
  }

  /** The number of characters of the word `s` begins with. */
  function WordLength(s: string): (n: nat)
    ensures n <= |s|
  {
    if EndsWord(s) then 0 else 1 + WordLength(s[1..])
  }

  lemma {:induction false} WordLengthOf(w: string, x: string)
    requires IsWord(w) && EndsWord(x)
    ensures WordLength(w + x) == |w|
  {
    if w == [] {
      assert w + x == x;
    } else {
      assert w[0] in w && (w + x)[0] == w[0];
      assert (w + x)[1..] == w[1..] + x;
      WordLengthOf(w[1..], x);
    }
  }

  function DigitValue(c: char): nat {
    if '0' <= c <= '9' then (c - '0') as nat else 0
  }

  function Value(s: string): nat {
    if s == [] then 0 else Value(s[..|s| - 1]) * 10 + DigitValue(s[|s| - 1])
  }

  lemma DigitsValue(n: nat)
    requires n < 10
    ensures DigitValue(DIGITS[n]) == n
  {}

  /** Numbers can be read back. */
  lemma {:induction false} DecimalValue(n: nat)
    ensures Value(Decimal(n)) == n
  {
    DigitsValue(n % 10);
    if n < 10 {
      assert Decimal(n)[..0] == [];
    } else {
      DecimalValue(n / 10);
      assert Decimal(n)[..|Decimal(n)| - 1] == Decimal(n / 10);
    }
  }

  lemma DecimalIsWord(n: nat)
    ensures IsWord(Decimal(n))
  {
    forall c | c in Decimal(n)
      ensures IsWordChar(c)
    {
      assert c in DIGITS;
    }
  }

  // ---------- Types, taken apart into a base type and array dimensions

  predicate IsArray(t: ParamType) {
    t.Array? || t.FixedArray?
  }

  function Base(t: ParamType): (b: ParamType)
    ensures !IsArray(b) && (b == t || (t decreases to b))
  {
    if IsArray(t) then Base(t.inner) else t
  }

  /** The dimensions of an array type, innermost first; a dynamic one has no length. */
  function Dims(t: ParamType): seq<Option<nat>> {
    match t
    case Array(inner) => Dims(inner) + [None]
    case FixedArray(inner, length) => Dims(inner) + [Some(length)]
    case _ => []
  }

  function Build(base: ParamType, dims: seq<Option<nat>>): ParamType {
    if dims == [] then base else
    var inner := Build(base, dims[..|dims| - 1]);
    match dims[|dims| - 1]
    case None => Array(inner)
    case Some(length) => FixedArray(inner, length)
  }

  lemma {:induction false} Rebuilt(t: ParamType)
    ensures Build(Base(t), Dims(t)) == t
  {
    if IsArray(t) {
      Rebuilt(t.inner);
      assert Dims(t)[..|Dims(t)| - 1] == Dims(t.inner);
    }
  }

  function DimSignature(d: Option<nat>): string {
    match d
    case None => "[]"
    case Some(length) => "[" + Decimal(length) + "]"
  }

  function DimsSignature(dims: seq<Option<nat>>): string {
    if dims == [] then "" else DimSignature(dims[0]) + DimsSignature(dims[1..])
  }

  lemma {:induction false} DimsSnoc(dims: seq<Option<nat>>, d: Option<nat>)
    ensures DimsSignature(dims + [d]) == DimsSignature(dims) + DimSignature(d)
  {
    if dims == [] {
      assert dims + [d] == [d];
    } else {
      assert (dims + [d])[1..] == dims[1..] + [d];
      DimsSnoc(dims[1..], d);
    }
  }

  lemma ArraySignature(t: ParamType, d: Option<nat>)
    requires IsArray(t) && d == if t.Array? then None else Some(t.length)
    ensures EventParamTypeSignature(t) == EventParamTypeSignature(t.inner) + DimSignature(d)
  {
    if t.FixedArray? {
      Assoc(EventParamTypeSignature(t.inner), "[", Decimal(t.length));
      Assoc(EventParamTypeSignature(t.inner), "[" + Decimal(t.length), "]");
    }
  }

  lemma {:induction false} SignatureParts(t: ParamType)
    ensures EventParamTypeSignature(t) == EventParamTypeSignature(Base(t)) + DimsSignature(Dims(t))
  {
    if IsArray(t) {
      var d := if t.Array? then None else Some(t.length);
      SignatureParts(t.inner);
      DimsSnoc(Dims(t.inner), d);
      Assoc(EventParamTypeSignature(Base(t)), DimsSignature(Dims(t.inner)), DimSignature(d));
      ArraySignature(t, d);
    }
  }

  /** What can follow a complete type: the end, a comma, or a closing parenthesis. */
  predicate EndsType(s: string) {
    s == [] || s[0] == ',' || s[0] == ')'
  }

  /** What can follow a base type: the same, or an array dimension. */
  predicate EndsBase(s: string) {
    EndsType(s) || s[0] == '['
  }

  lemma Assoc(a: string, b: string, c: string)
    ensures a + b + c == a + (b + c)
  {}

  lemma FirstOfDims(a: seq<Option<nat>>, x: string)
    ensures a != [] ==> (DimsSignature(a) + x) != [] && (DimsSignature(a) + x)[0] == '['
  {}

  lemma AfterBase(dims: seq<Option<nat>>, x: string)
    requires EndsType(x)
    ensures EndsBase(DimsSignature(dims) + x)
  {
    if dims == [] { assert [] + x == x; } else { FirstOfDims(dims, x); }
  }

  /** Event names are identifiers; all that matters here is that they contain no parenthesis. */
  predicate IsName(s: string) {
    '(' !in s
  }

  function FindParen(s: string): nat {
    if s == [] || s[0] == '(' then 0 else 1 + FindParen(s[1..])
  }

  lemma {:induction false} FindParenAfter(name: string, rest: string)
    requires IsName(name)
    ensures FindParen(name + ("(" + rest)) == |name|
  {
    if name != [] {
      assert (name + ("(" + rest))[1..] == name[1..] + ("(" + rest);
      assert name[0] in name;
      FindParenAfter(name[1..], rest);
    } else {
      assert name + ("(" + rest) == "(" + rest;
    }
  }

  // ---------- Reading

  /** A decimal number without leading zeros. */
  function ReadNumber(s: string): Option<nat> {
    if s != [] && AllDigits(s) && (|s| == 1 || s[0] != '0') then Some(Value(s)) else None
  }

  predicate AllDigits(s: string) {
    forall i :: 0 <= i < |s| ==> '0' <= s[i] <= '9'
  }

  /** The elementary types and their names. */
  function ReadWord(w: string): Option<ParamType> {
    if w == "address" then Some(Address)
    else if w == "bool" then Some(Bool)
    else if w == "string" then Some(String)
    else if w == "bytes" then Some(Bytes)
    else if "uint" <= w then match ReadNumber(w[4..]) case Some(n) => Some(UintOf(n)) case None => None
    else if "int" <= w then match ReadNumber(w[3..]) case Some(n) => Some(IntOf(n)) case None => None
    else if "bytes" <= w then match ReadNumber(w[5..]) case Some(n) => Some(FixedBytes(n)) case None => None
    else None
  }

  /** What was read, and the rest of the string. */
  datatype Read<+T> = Read(value: T, rest: string)

  /** An array dimension: brackets with nothing between them, or with a length. */
  function ReadDim(s: string): (r: Option<Read<Option<nat>>>)
    ensures r.Some? ==> |r.value.rest| < |s|
  {
    if s == [] || s[0] != '[' then None else
    var n := WordLength(s[1..]);
    if |s| <= n + 1 || s[n + 1] != ']' then None
    else if n == 0 then Some(Read(None, s[2..]))
    else match ReadNumber(s[1..n + 1])
      case Some(length) => Some(Read(Some(length), s[n + 2..]))
      case None => None
  }

  function ArrayOf(t: ParamType, d: Option<nat>): ParamType {
    match d case None => Array(t) case Some(length) => FixedArray(t, length)
  }

  /** Array dimensions after a type, as many as there are. */
  function ReadDims(t: ParamType, s: string): (r: Read<ParamType>)
    ensures |r.rest| <= |s|
    decreases |s|
  {
    match ReadDim(s)
    case Some(Read(d, rest)) => ReadDims(ArrayOf(t, d), rest)
    case None => Read(t, s)
  }

  /** A tuple in parentheses, or an elementary type. */
  function ReadBase(s: string): (r: Option<Read<ParamType>>)
    ensures r.Some? ==> |r.value.rest| < |s|
    decreases |s|, 1
  {
    if s != [] && s[0] == '(' then
      match ReadList(s[1..])
      case Some(Read(ts, rest)) => Some(Read(Tuple(ts), rest))
      case None => None
    else
      var n := WordLength(s);
      match ReadWord(s[..n])
      case Some(t) => Some(Read(t, s[n..]))
      case None => None
  }

  function ReadType(s: string): (r: Option<Read<ParamType>>)
    ensures r.Some? ==> |r.value.rest| < |s|
    decreases |s|, 2
  {
    match ReadBase(s)
    case Some(Read(t, rest)) => Some(ReadDims(t, rest))
    case None => None
  }

  /** Types with commas between them, up to and with the closing parenthesis. */
  function ReadList(s: string): (r: Option<Read<seq<ParamType>>>)
    ensures r.Some? ==> |r.value.rest| < |s|
    decreases |s|, 4
  {
    if s != [] && s[0] == ')' then Some(Read([], s[1..])) else ReadItems(s)
  }

  function ReadItems(s: string): (r: Option<Read<seq<ParamType>>>)
    ensures r.Some? ==> |r.value.rest| < |s|
    decreases |s|, 3
  {
    match ReadType(s)
    case None => None
    case Some(Read(t, rest)) =>
      if rest == [] then None
      else if rest[0] == ')' then Some(Read([t], rest[1..]))
      else if rest[0] != ',' then None
      else match ReadItems(rest[1..])
        case Some(Read(ts, end)) => Some(Read([t] + ts, end))
        case None => None
  }

  function ReadInput(s: string): (r: Option<Read<Input>>)
    ensures r.Some? ==> |r.value.rest| < |s|
  {
    var indexed := "indexed " <= s;
    match ReadType(if indexed then s[8..] else s)
    case Some(Read(t, rest)) => Some(Read(Input(indexed, t), rest))
    case None => None
  }

  function ReadInputs(s: string): Option<Read<seq<Input>>> {
    if s != [] && s[0] == ')' then Some(Read([], s[1..])) else ReadInputItems(s)
  }

  function ReadInputItems(s: string): Option<Read<seq<Input>>>
    decreases |s|
  {
    match ReadInput(s)
    case None => None
    case Some(Read(i, rest)) =>
      if rest == [] then None
      else if rest[0] == ')' then Some(Read([i], rest[1..]))
      else if rest[0] != ',' then None
      else match ReadInputItems(rest[1..])
        case Some(Read(inputs, end)) => Some(Read([i] + inputs, end))
        case None => None
  }

  /** An event: its name up to the first parenthesis, its inputs, and nothing after them. */
  function ReadEvent(s: string): Option<Event> {
    var p := FindParen(s);
    if p >= |s| then None else
    match ReadInputs(s[p + 1..])
    case Some(Read(inputs, rest)) => if rest == [] then Some(Event(s[..p], inputs)) else None
    case None => None
  }

  // ---------- What is printed is read back

  lemma DecimalRead(n: nat)
    ensures ReadNumber(Decimal(n)) == Some(n)
  {
    DecimalValue(n);
    DecimalFirst(n);
    forall i | 0 <= i < |Decimal(n)|
      ensures '0' <= Decimal(n)[i] <= '9'
    {
      assert Decimal(n)[i] in Decimal(n) && Decimal(n)[i] in DIGITS;
    }
  }

  lemma {:induction false} DecimalFirst(n: nat)
    ensures n > 0 ==> Decimal(n)[0] != '0'
    ensures n < 10 ==> |Decimal(n)| == 1
  {
    if n >= 10 { DecimalFirst(n / 10); }
  }

  lemma Prefixed(prefix: string, rest: string)
    ensures prefix <= prefix + rest && (prefix + rest)[|prefix|..] == rest
  {}

  /** The word of a type that is not made of others. */
  lemma WordRead(t: ParamType)
    requires !IsArray(t) && !t.Tuple?
    ensures ReadWord(EventParamTypeSignature(t)) == Some(t) && IsWord(EventParamTypeSignature(t))
  {
    match t
    case IntOf(n) => IntRead(n);
    case UintOf(n) => UintRead(n);
    case FixedBytes(n) => FixedBytesRead(n);
    case _ =>
  }

  lemma IntRead(n: nat)
    ensures ReadWord("int" + Decimal(n)) == Some(IntOf(n)) && IsWord("int" + Decimal(n))
  {
    SizedRead("int", n);
    assert ("int" + Decimal(n))[0] == 'i';
  }

  lemma UintRead(n: nat)
    ensures ReadWord("uint" + Decimal(n)) == Some(UintOf(n)) && IsWord("uint" + Decimal(n))
  {
    SizedRead("uint", n);
    assert ("uint" + Decimal(n))[0] == 'u';
  }

  lemma FixedBytesRead(n: nat)
    ensures ReadWord("bytes" + Decimal(n)) == Some(FixedBytes(n)) && IsWord("bytes" + Decimal(n))
  {
    SizedRead("bytes", n);
    assert ("bytes" + Decimal(n))[0] == 'b' && ("bytes" + Decimal(n))[1] == 'y';
  }

  lemma SizedRead(prefix: string, n: nat)
    requires IsWord(prefix)
    ensures var w := prefix + Decimal(n);
            && IsWord(w) && prefix <= w && |w| > |prefix| && w[|prefix|..] == Decimal(n)
            && ReadNumber(w[|prefix|..]) == Some(n)
  {
    DecimalIsWord(n);
    DecimalRead(n);
    Prefixed(prefix, Decimal(n));
  }

  lemma {:induction false} BuildFront(t: ParamType, d: Option<nat>, dims: seq<Option<nat>>)
    ensures Build(t, [d] + dims) == Build(Build(t, [d]), dims)
  {
    if dims == [] {
      assert [d] + dims == [d];
    } else {
      assert ([d] + dims)[..|dims|] == [d] + dims[..|dims| - 1];
      BuildFront(t, d, dims[..|dims| - 1]);
    }
  }

  lemma {:induction false} DimsRead(t: ParamType, dims: seq<Option<nat>>, x: string)
    requires EndsType(x)
    ensures ReadDims(t, DimsSignature(dims) + x) == Read(Build(t, dims), x)
    decreases |dims|
  {
    if dims == [] {
      NoDimsRead(t, x);
    } else {
      var d, rest := dims[0], dims[1..];
      OneDimRead(t, d, DimsSignature(rest) + x);
      DimsRead(ArrayOf(t, d), rest, x);
      assert Build(t, dims) == Build(ArrayOf(t, d), rest) by {
        BuildOne(t, d);
        BuildFront(t, d, rest);
        assert dims == [d] + rest;
      }
      assert DimsSignature(dims) + x == DimSignature(d) + (DimsSignature(rest) + x) by {
        Assoc(DimSignature(d), DimsSignature(rest), x);
      }
    }
  }

  lemma NoDimsRead(t: ParamType, x: string)
    requires EndsType(x)
    ensures ReadDims(t, "" + x) == Read(t, x)
  {
    assert "" + x == x;
  }

  lemma OneDimRead(t: ParamType, d: Option<nat>, rest: string)
    ensures ReadDims(t, DimSignature(d) + rest) == ReadDims(ArrayOf(t, d), rest)
  {
    DimRead(d, rest);
  }

  lemma BuildOne(t: ParamType, d: Option<nat>)
    ensures Build(t, [d]) == ArrayOf(t, d)
  {
    var dims: seq<Option<nat>> := [d];
    assert dims[..0] == [];
  }

  lemma DimRead(d: Option<nat>, rest: string)
    ensures ReadDim(DimSignature(d) + rest) == Some(Read(d, rest))
  {
    match d
    case None => DynamicRead(rest);
    case Some(n) => FixedRead(n, rest);
  }

  lemma DynamicRead(rest: string)
    ensures ReadDim("[]" + rest) == Some(Read(None, rest))
  {
    var s := "[]" + rest;
    assert s[1..] == "]" + rest && s[2..] == rest && EndsWord(s[1..]);
  }

  lemma FixedRead(n: nat, rest: string)
    ensures ReadDim("[" + Decimal(n) + "]" + rest) == Some(Read(Some(n), rest))
  {
    var w, s := Decimal(n), "[" + Decimal(n) + "]" + rest;
    assert s[1..] == w + ("]" + rest);
    DecimalIsWord(n);
    DecimalRead(n);
    WordLengthOf(w, "]" + rest);
    assert s[1..|w| + 1] == w && s[|w| + 1] == ']' && s[|w| + 2..] == rest;
  }

  /** Complete types, followed by something that cannot belong to them. */
  lemma TypeRead(t: ParamType, x: string)
    requires EndsType(x)
    ensures ReadType(EventParamTypeSignature(t) + x) == Some(Read(t, x))
    decreases t, 1
  {
    var y := DimsSignature(Dims(t)) + x;
    SignatureParts(t);
    Assoc(EventParamTypeSignature(Base(t)), DimsSignature(Dims(t)), x);
    AfterBase(Dims(t), x);
    BaseRead(Base(t), y);
    DimsRead(Base(t), Dims(t), x);
    Rebuilt(t);
  }

  lemma BaseRead(t: ParamType, y: string)
    requires !IsArray(t) && EndsBase(y)
    ensures ReadBase(EventParamTypeSignature(t) + y) == Some(Read(t, y))
    decreases t, 0
  {
    if t.Tuple? {
      ListRead(t.components, y);
      Assoc("(" + Joined(t.components), ")", y);
      Assoc("(", Joined(t.components), ")" + y);
      Prefixed("(", Joined(t.components) + (")" + y));
    } else {
      ElementaryRead(t, y);
    }
  }

  lemma ElementaryRead(t: ParamType, y: string)
    requires !IsArray(t) && !t.Tuple? && EndsBase(y)
    ensures ReadBase(EventParamTypeSignature(t) + y) == Some(Read(t, y))
  {
    var w := EventParamTypeSignature(t);
    var s := w + y;
    WordRead(t);
    WordLengthOf(w, y);
    assert s[..|w|] == w && s[|w|..] == y;
    assert w != [] && s[0] == w[0] && w[0] in w;
  }

  lemma ListRead(ts: seq<ParamType>, y: string)
    ensures ReadList(Joined(ts) + (")" + y)) == Some(Read(ts, y))
    decreases ts, 1
  {
    var s := Joined(ts) + (")" + y);
    if ts == [] {
      assert s == ")" + y && s[1..] == y;
    } else {
      ItemsRead(ts, y);
      if s[0] == ')' { assert ReadType(s).None? by { NoType(s); } }
    }
  }

  /** No type begins with a closing parenthesis. */
  lemma NoType(s: string)
    requires s != [] && s[0] == ')'
    ensures ReadType(s).None?
  {
    assert s[..0] == [];
  }

  lemma ItemsRead(ts: seq<ParamType>, y: string)
    requires ts != []
    ensures ReadItems(Joined(ts) + (")" + y)) == Some(Read(ts, y))
    decreases ts, 0
  {
    var t, rest := ts[0], AfterFirst(ts, ")" + y);
    JoinedParts(ts, ")" + y);
    TypeRead(t, rest);
    if |ts| > 1 {
      assert rest[1..] == Joined(ts[1..]) + (")" + y);
      ItemsRead(ts[1..], y);
      assert ts == [t] + ts[1..];
    } else {
      assert rest[1..] == y && ts == [t];
    }
  }

  /** What follows the first type of a list. */
  function AfterFirst(a: seq<ParamType>, x: string): string
    requires a != []
  {
    if |a| == 1 then x else "," + (Joined(a[1..]) + x)
  }

  lemma JoinedParts(a: seq<ParamType>, x: string)
    requires a != []
    ensures Joined(a) + x == EventParamTypeSignature(a[0]) + AfterFirst(a, x)
  {
    if |a| > 1 {
      Assoc(EventParamTypeSignature(a[0]) + ",", Joined(a[1..]), x);
      Assoc(EventParamTypeSignature(a[0]), ",", Joined(a[1..]) + x);
    }
  }

  /** The mark cannot be the beginning of a type. */
  lemma MarkIsNoType(s: string)
    requires "indexed " <= s
    ensures ReadType(s).None?
  {
    var rest := s[7..];
    assert s == "indexed" + rest && rest[0] == ' ';
    WordLengthOf("indexed", rest);
    assert s[..7] == "indexed" && s[0] == 'i';
    NoSuchWord();
  }

  lemma NoSuchWord()
    ensures ReadWord("indexed").None?
  {
    var w := "indexed";
    assert w[0] == 'i' && w[2] == 'd';
  }

  lemma InputRead(i: Input, x: string)
    requires EndsType(x)
    ensures ReadInput(InputSignature(i) + x) == Some(Read(i, x))
  {
    if i.indexed {
      MarkedRead(i.kind, x);
      Assoc("indexed ", EventParamTypeSignature(i.kind), x);
    } else {
      UnmarkedRead(i.kind, x);
      assert "" + EventParamTypeSignature(i.kind) == EventParamTypeSignature(i.kind);
    }
  }

  lemma MarkedRead(kind: ParamType, x: string)
    requires EndsType(x)
    ensures ReadInput("indexed " + (EventParamTypeSignature(kind) + x)) == Some(Read(Input(true, kind), x))
  {
    TypeRead(kind, x);
    Prefixed("indexed ", EventParamTypeSignature(kind) + x);
  }

  lemma UnmarkedRead(kind: ParamType, x: string)
    requires EndsType(x)
    ensures ReadInput(EventParamTypeSignature(kind) + x) == Some(Read(Input(false, kind), x))
  {
    var s := EventParamTypeSignature(kind) + x;
    TypeRead(kind, x);
    if "indexed " <= s { MarkIsNoType(s); }
  }

  function AfterFirstInput(a: seq<Input>, x: string): string
    requires a != []
  {
    if |a| == 1 then x else "," + (JoinedInputs(a[1..]) + x)
  }

  lemma JoinedInputsParts(a: seq<Input>, x: string)
    requires a != []
    ensures JoinedInputs(a) + x == InputSignature(a[0]) + AfterFirstInput(a, x)
  {
    if |a| > 1 {
      Assoc(InputSignature(a[0]) + ",", JoinedInputs(a[1..]), x);
      Assoc(InputSignature(a[0]), ",", JoinedInputs(a[1..]) + x);
    }
  }

  lemma {:induction false} InputItemsRead(inputs: seq<Input>, y: string)
    requires inputs != []
    ensures ReadInputItems(JoinedInputs(inputs) + (")" + y)) == Some(Read(inputs, y))
    decreases |inputs|
  {
    var rest := AfterFirstInput(inputs, ")" + y);
    JoinedInputsParts(inputs, ")" + y);
    InputRead(inputs[0], rest);
    if |inputs| > 1 {
      assert rest[1..] == JoinedInputs(inputs[1..]) + (")" + y);
      InputItemsRead(inputs[1..], y);
      assert inputs == [inputs[0]] + inputs[1..];
    } else {
      assert rest[1..] == y && inputs == [inputs[0]];
    }
  }

  lemma InputsRead(inputs: seq<Input>, y: string)
    ensures ReadInputs(JoinedInputs(inputs) + (")" + y)) == Some(Read(inputs, y))
  {
    var s := JoinedInputs(inputs) + (")" + y);
    if inputs == [] {
      assert s == ")" + y && s[1..] == y;
    } else {
      InputItemsRead(inputs, y);
      if s[0] == ')' { NoType(s); }
    }
  }

  lemma SplitAtParen(name: string, inner: string)
    requires IsName(name)
    ensures var s := name + "(" + inner + ")";
            FindParen(s) == |name| < |s| && s[..|name|] == name && s[|name| + 1..] == inner + ")"
  {
    var s := name + "(" + inner + ")";
    assert s == name + ("(" + (inner + ")"));
    FindParenAfter(name, inner + ")");
  }

  /** Reading an event's signature gives the event: its name, which inputs are indexed, and their types down to the
      innermost. */
  lemma EventRead(e: Event)
    requires IsName(e.name)
    ensures ReadEvent(EventSignature(e)) == Some(e)
  {
    SplitAtParen(e.name, JoinedInputs(e.inputs));
    InputsRead(e.inputs, []);
    assert ")" + [] == ")";
  }

  /** Without the marks it is the event with no input indexed. */
  function Unmarked(inputs: seq<Input>): seq<Input> {
    seq(|inputs|, i requires 0 <= i < |inputs| => Input(false, inputs[i].kind))
  }

  lemma {:induction false} UnmarkedSignature(inputs: seq<Input>)
    ensures JoinedInputs(Unmarked(inputs)) == Joined(Kinds(inputs))
    decreases |inputs|
  {
    if inputs != [] {
      UnmarkedSignature(inputs[1..]);
      assert Unmarked(inputs)[1..] == Unmarked(inputs[1..]);
      assert Kinds(inputs)[1..] == Kinds(inputs[1..]);
      assert "" + EventParamTypeSignature(inputs[0].kind) == EventParamTypeSignature(inputs[0].kind);
      KindsLength(inputs[1..]);
    }
  }

  lemma {:induction false} KindsLength(inputs: seq<Input>)
    ensures |Kinds(inputs)| == |inputs|
  {
    if inputs != [] { KindsLength(inputs[1..]); }
  }

  lemma AmbiguousRead(e: Event)
    requires IsName(e.name)
    ensures ReadEvent(AmbiguousEventSignature(e)) == Some(Event(e.name, Unmarked(e.inputs)))
  {
    UnmarkedSignature(e.inputs);
    EventRead(Event(e.name, Unmarked(e.inputs)));
  }

  // ---------- What can be read is printed so

  lemma {:induction false} NumberPrinted(s: string)
    requires s != [] && AllDigits(s) && (|s| == 1 || s[0] != '0')
    ensures Decimal(Value(s)) == s
    ensures s[0] != '0' ==> Value(s) > 0
    decreases |s|
  {
    if |s| == 1 {
      OneDigitPrinted(s);
    } else {
      var tens, c := s[..|s| - 1], s[|s| - 1];
      TensPrecede(s, tens, c);
      NumberPrinted(tens);
      OneMoreDigit(tens, c);
    }
  }

  lemma TensPrecede(s: string, tens: string, c: char)
    requires |s| > 1 && AllDigits(s) && s[0] != '0' && tens == s[..|s| - 1] && c == s[|s| - 1]
    ensures s == tens + [c] && tens != [] && AllDigits(tens) && tens[0] != '0' && '0' <= c <= '9'
  {}

  lemma OneDigitPrinted(s: string)
    requires |s| == 1 && AllDigits(s)
    ensures Decimal(Value(s)) == s && (s[0] != '0' ==> Value(s) > 0)
  {
    DigitPrinted(s[0]);
    assert s == [s[0]] && s[..0] == [];
  }

  lemma OneMoreDigit(tens: string, c: char)
    requires '0' <= c <= '9' && Decimal(Value(tens)) == tens && Value(tens) > 0
    ensures Decimal(Value(tens + [c])) == tens + [c] && Value(tens + [c]) > 0
  {
    ValueSnoc(tens, c);
    DigitPrinted(c);
    LastDigit(Value(tens), DigitValue(c));
  }

  lemma ValueSnoc(tens: string, c: char)
    ensures Value(tens + [c]) == Value(tens) * 10 + DigitValue(c)
  {
    var s := tens + [c];
    assert s[..|s| - 1] == tens && s[|s| - 1] == c;
  }

  lemma DigitPrinted(c: char)
    requires '0' <= c <= '9'
    ensures DigitValue(c) < 10 && DIGITS[DigitValue(c)] == c && (c != '0' ==> DigitValue(c) > 0)
  {}

  lemma LastDigit(tens: nat, d: nat)
    requires tens > 0 && d < 10
    ensures Decimal(tens * 10 + d) == Decimal(tens) + [DIGITS[d]]
  {
    assert (tens * 10 + d) / 10 == tens && (tens * 10 + d) % 10 == d;
  }

  lemma WordPrinted(w: string)
    requires ReadWord(w).Some?
    ensures var t := ReadWord(w).value; EventParamTypeSignature(t) == w && !IsArray(t) && !t.Tuple?
  {
    if w !in {"address", "bool", "string", "bytes"} {
      var n := if "uint" <= w then 4 else if "int" <= w then 3 else 5;
      NumberPrinted(w[n..]);
      assert w == w[..n] + w[n..];
    }
  }

  lemma {:induction false} DimsPrinted(t: ParamType, s: string)
    ensures var Read(u, rest) := ReadDims(t, s); EventParamTypeSignature(t) + s == EventParamTypeSignature(u) + rest
    decreases |s|
  {
    if ReadDim(s).Some? {
      var Read(d, rest) := ReadDim(s).value;
      DimPrinted(s);
      ArraySignature(ArrayOf(t, d), d);
      Assoc(EventParamTypeSignature(t), DimSignature(d), rest);
      DimsPrinted(ArrayOf(t, d), rest);
    }
  }

  lemma DimPrinted(s: string)
    requires ReadDim(s).Some?
    ensures var Read(d, rest) := ReadDim(s).value; s == DimSignature(d) + rest
  {
    var n := WordLength(s[1..]);
    Bracketed(s, n);
    if n > 0 { NumberPrinted(s[1..n + 1]); }
  }

  lemma Bracketed(s: string, n: nat)
    requires n + 1 < |s| && s[0] == '[' && s[n + 1] == ']'
    ensures s == "[" + s[1..n + 1] + "]" + s[n + 2..]
    ensures n == 0 ==> s == "[]" + s[2..]
  {
  }

  lemma {:induction false} TypePrinted(s: string)
    requires ReadType(s).Some?
    ensures var Read(t, rest) := ReadType(s).value; s == EventParamTypeSignature(t) + rest
    decreases |s|, 1
  {
    BasePrinted(s);
    var Read(t, rest) := ReadBase(s).value;
    DimsPrinted(t, rest);
  }

  lemma {:induction false} BasePrinted(s: string)
    requires ReadBase(s).Some?
    ensures var Read(t, rest) := ReadBase(s).value; s == EventParamTypeSignature(t) + rest
    decreases |s|, 0
  {
    if s != [] && s[0] == '(' {
      ListPrinted(s[1..]);
      var Read(ts, rest) := ReadList(s[1..]).value;
      assert s == "(" + s[1..] && s == "(" + Joined(ts) + ")" + rest;
    } else {
      var n := WordLength(s);
      WordPrinted(s[..n]);
      assert s == s[..n] + s[n..];
    }
  }

  lemma {:induction false} ListPrinted(s: string)
    requires ReadList(s).Some?
    ensures var Read(ts, rest) := ReadList(s).value; s == Joined(ts) + (")" + rest)
    decreases |s|, 3
  {
    if s != [] && s[0] == ')' {
      assert s == [] + (")" + s[1..]);
    } else {
      ItemsPrinted(s);
    }
  }

  lemma {:induction false} ItemsPrinted(s: string)
    requires ReadItems(s).Some?
    ensures var Read(ts, rest) := ReadItems(s).value; ts != [] && s == Joined(ts) + (")" + rest)
    decreases |s|, 2
  {
    TypePrinted(s);
    var Read(t, rest) := ReadType(s).value;
    if rest[0] == ')' {
      assert rest == ")" + rest[1..];
    } else {
      ItemsPrinted(rest[1..]);
      var Read(ts, end) := ReadItems(rest[1..]).value;
      assert ([t] + ts)[1..] == ts && rest == "," + rest[1..];
      JoinedParts([t] + ts, ")" + end);
    }
  }

  lemma InputPrinted(s: string)
    requires ReadInput(s).Some?
    ensures var Read(i, rest) := ReadInput(s).value; s == InputSignature(i) + rest
  {
    var indexed := "indexed " <= s;
    var mark := if indexed then "indexed " else "";
    var after := if indexed then s[8..] else s;
    TypePrinted(after);
    var Read(t, rest) := ReadType(after).value;
    assert s == mark + after;
    Assoc(mark, EventParamTypeSignature(t), rest);
  }

  lemma {:induction false} InputItemsPrinted(s: string)
    requires ReadInputItems(s).Some?
    ensures var Read(inputs, rest) := ReadInputItems(s).value; inputs != [] && s == JoinedInputs(inputs) + (")" + rest)
    decreases |s|
  {
    InputPrinted(s);
    var Read(i, rest) := ReadInput(s).value;
    HeadAndTail(rest);
    if rest[0] == ',' {
      InputItemsPrinted(rest[1..]);
      var Read(inputs, end) := ReadInputItems(rest[1..]).value;
      MoreInputs(i, inputs, ")" + end);
    }
  }

  lemma HeadAndTail(s: string)
    requires s != []
    ensures s == [s[0]] + s[1..]
  {
  }

  lemma MoreInputs(i: Input, inputs: seq<Input>, x: string)
    requires inputs != []
    ensures JoinedInputs([i] + inputs) + x == InputSignature(i) + ("," + (JoinedInputs(inputs) + x))
  {
    assert ([i] + inputs)[1..] == inputs;
    JoinedInputsParts([i] + inputs, x);
  }

  lemma InputsPrinted(s: string)
    requires ReadInputs(s).Some?
    ensures var Read(inputs, rest) := ReadInputs(s).value; s == JoinedInputs(inputs) + (")" + rest)
  {
    if s != [] && s[0] == ')' {
      HeadAndTail(s);
      assert [] + s == s;
    } else {
      InputItemsPrinted(s);
    }
  }

  /** A string that reads as an event is that event's signature. */
  lemma EventPrinted(s: string)
    requires ReadEvent(s).Some?
    ensures EventSignature(ReadEvent(s).value) == s && IsName(ReadEvent(s).value.name)
  {
    var p := FindParen(s);
    var Read(inputs, rest) := ReadInputs(s[p + 1..]).value;
    NameIsName(s);
    InputsPrinted(s[p + 1..]);
    assert ")" + [] == ")";
    Around(s, p);
    Assoc(s[..p] + "(", JoinedInputs(inputs), ")");
  }

  lemma Around(s: string, p: nat)
    requires p < |s| && s[p] == '('
    ensures s == s[..p] + "(" + s[p + 1..]
  {
  }

  lemma {:induction false} NameIsName(s: string)
    ensures var p := FindParen(s); p <= |s| && IsName(s[..p]) && (p < |s| ==> s[p] == '(')
  {
    if s != [] && s[0] != '(' {
      NameIsName(s[1..]);
      assert s[..FindParen(s)] == [s[0]] + s[1..][..FindParen(s[1..])];
    }
  }

  // ---------- So signatures tell events apart

  /** A printed type that is followed by something that cannot belong to it has one reading. */
  lemma TypeUnique(a: ParamType, b: ParamType, x: string, y: string)
    requires EndsType(x) && EndsType(y) && EventParamTypeSignature(a) + x == EventParamTypeSignature(b) + y
    ensures a == b && x == y
  {
    TypeRead(a, x);
    TypeRead(b, y);
  }

  /** A signature has only one event. */
  lemma EventSignatureUnique(a: Event, b: Event)
    requires IsName(a.name) && IsName(b.name) && EventSignature(a) == EventSignature(b)
    ensures a == b
  {
    EventRead(a);
    EventRead(b);
  }

  /** A signature without `indexed` determines the name and the types. */
  lemma AmbiguousSignatureUnique(a: Event, b: Event)
    requires IsName(a.name) && IsName(b.name) && AmbiguousEventSignature(a) == AmbiguousEventSignature(b)
    ensures a.name == b.name && Kinds(a.inputs) == Kinds(b.inputs)
  {
    AmbiguousRead(a);
    AmbiguousRead(b);
    KindsOfUnmarked(a.inputs);
    KindsOfUnmarked(b.inputs);
  }

  lemma {:induction false} KindsOfUnmarked(inputs: seq<Input>)
    ensures Kinds(Unmarked(inputs)) == Kinds(inputs)
    decreases |inputs|
  {
    if inputs != [] {
      KindsOfUnmarked(inputs[1..]);
      assert Unmarked(inputs)[1..] == Unmarked(inputs[1..]);
    }
  }

  // ---------- Finding an event

  function FindEvent(events: seq<Event>, signature: string): Option<Event> {
    if events == [] then None
    else if EventSignature(events[0]) == signature then Some(events[0])
    else FindEvent(events[1..], signature)
  }

  function EventsNamed(events: seq<Event>, name: string): seq<Event> {
    if events == [] then []
    else (if events[0].name == name then [events[0]] else []) + EventsNamed(events[1..], name)
  }

  /** The part of a signature before its first parenthesis, or nothing when there is none. */
  function NameOf(signature: string): string {
    var parens := FindParen(signature);
    if parens < |signature| then signature[..parens] else ""
  }

  function ContractEventWithSignature(events: seq<Event>, signature: string): Option<Event> {
    var exact := FindEvent(events, signature);
    if exact.Some? then exact else
    var matching := EventsNamed(events, NameOf(signature));
    if |matching| == 1 && AmbiguousEventSignature(matching[0]) == signature then Some(matching[0]) else None
  }

  lemma {:induction false} FindEventMeaning(events: seq<Event>, signature: string)
    ensures match FindEvent(events, signature)
            case Some(e) => e in events && EventSignature(e) == signature
            case None => forall e :: e in events ==> EventSignature(e) != signature
  {
    if events != [] {
      FindEventMeaning(events[1..], signature);
      assert events == [events[0]] + events[1..];
    }
  }

  lemma {:induction false} EventsNamedMeaning(events: seq<Event>, name: string, e: Event)
    ensures e in EventsNamed(events, name) <==> e in events && e.name == name
  {
    if events != [] {
      EventsNamedMeaning(events[1..], name, e);
      assert events == [events[0]] + events[1..];
    }
  }

  lemma NameOfSignature(e: Event)
    requires IsName(e.name)
    ensures NameOf(EventSignature(e)) == e.name && NameOf(AmbiguousEventSignature(e)) == e.name
  {
    SplitAtParen(e.name, JoinedInputs(e.inputs));
    SplitAtParen(e.name, Joined(Kinds(e.inputs)));
  }

  /** Looking up the full signature of an event of the contract finds that event. */
  lemma LookupExact(events: seq<Event>, e: Event)
    requires e in events && forall x :: x in events ==> IsName(x.name)
    ensures ContractEventWithSignature(events, EventSignature(e)) == Some(e)
  {
    FindEventMeaning(events, EventSignature(e));
    EventSignatureUnique(FindEvent(events, EventSignature(e)).value, e);
  }

  /** Looking up any string that reads as an event of the contract finds that event. */
  lemma LookupRead(events: seq<Event>, signature: string, e: Event)
    requires e in events && forall x :: x in events ==> IsName(x.name)
    requires ReadEvent(signature) == Some(e)
    ensures ContractEventWithSignature(events, signature) == Some(e)
  {
    EventPrinted(signature);
    LookupExact(events, e);
  }

  /** What is found always fits: it is the event with the full signature, or, when no event has that, the only event of
      its name, whose types are the ones in the signature. */
  lemma LookupSound(events: seq<Event>, signature: string)
    requires forall x :: x in events ==> IsName(x.name)
    ensures match ContractEventWithSignature(events, signature)
            case None => forall e :: e in events ==> EventSignature(e) != signature
            case Some(e) =>
              e in events &&
              (EventSignature(e) == signature ||
               (AmbiguousEventSignature(e) == signature &&
                forall x :: x in events ==> EventSignature(x) != signature && (x.name == e.name ==> x == e)))
  {
    FindEventMeaning(events, signature);
    var matching := EventsNamed(events, NameOf(signature));
    if FindEvent(events, signature).None? && |matching| == 1 && AmbiguousEventSignature(matching[0]) == signature {
      EventsNamedMeaning(events, NameOf(signature), matching[0]);
      NameOfSignature(matching[0]);
      forall x | x in events && x.name == matching[0].name
        ensures x == matching[0]
      {
        EventsNamedMeaning(events, NameOf(signature), x);
      }
    }
  }

  /** What a signature without `indexed` finds: the event with this full signature, if there is one, which is the event
      meant only if none of its inputs is indexed; and otherwise the event meant exactly if it is listed as the only one
      of its name. */
  lemma LookupAmbiguous(events: seq<Event>, e: Event)
    requires e in events && forall x :: x in events ==> IsName(x.name)
    ensures var signature := AmbiguousEventSignature(e);
            ContractEventWithSignature(events, signature) == Some(e) <==>
              if exists x :: x in events && EventSignature(x) == signature then EventSignature(e) == signature
              else EventsNamed(events, e.name) == [e]
  {
    var signature := AmbiguousEventSignature(e);
    FindEventMeaning(events, signature);
    if x :| x in events && EventSignature(x) == signature {
      if EventSignature(e) == signature { LookupExact(events, e); }
    } else {
      NameOfSignature(e);
      var matching := EventsNamed(events, e.name);
      assert |matching| == 1 ==> matching == [matching[0]];
    }
  }
}
