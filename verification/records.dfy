/** Records as fields in wire order, and lists of records: whatever is
    written is read back, and nothing more is consumed. */
module Records {
  import opened Types
  import opened Codec

  datatype Field = Number(width: nat, value: nat) | Text(text: Bytes)

  /** What a reader accepts in one place: a number below a bound, or a text within a limit, perhaps an identifier. */
  datatype Shape = NumberShape(width: nat, below: nat) | TextShape(max: nat, identifier: bool)

  predicate Alphanumeric(c: char) {
    '0' <= c <= '9' || 'a' <= c <= 'z' || 'A' <= c <= 'Z'
  }

  predicate ValidIdentifier(s: string, max: nat) {
    && 0 < |s| <= max && Alphanumeric(s[0])
    && forall i :: 0 <= i < |s| ==> Alphanumeric(s[i]) || s[i] in {'.', '_', '-', '~', ':'}
  }

  predicate Acceptable(shape: Shape, f: Field) {
    match shape
    case NumberShape(width, below) => f.Number? && f.width == width && f.value < below
    case TextShape(max, identifier) =>
      f.Text? && |f.text| <= max && (identifier ==> f.text == "" || ValidIdentifier(f.text, max))
  }

  /** A field that fits its shape and can be written at all. */
  predicate Fits(shape: Shape, f: Field) {
    Acceptable(shape, f) && match f
                            case Number(width, value) => value < Pow256(width)
                            case Text(text) => |text| < U32
  }

  predicate AllFit(shapes: seq<Shape>, fields: seq<Field>) {
    |shapes| == |fields| && forall i :: 0 <= i < |fields| ==> Fits(shapes[i], fields[i])
  }

  function Put(f: Field): Bytes {
    match f
    case Number(width, value) => LittleEndian(value, width)
    case Text(text) => Blob(text)
  }

  function PutAll(fields: seq<Field>): Bytes {
    if fields == [] then [] else Put(fields[0]) + PutAll(fields[1..])
  }

  type Reading<T> = Option<(T, Bytes)>

  function TakeRaw(shape: Shape, s: Bytes): Reading<Field> {
    match shape
    case NumberShape(width, _) => if |s| < width then None else Some((Number(width, NumberOf(s[..width])), s[width..]))
    case TextShape(max, _) =>
      if |s| < 4 then None
      else
        var length := NumberOf(s[..4]);
        if length > max || length > |s| - 4 then None else Some((Text(s[4..4 + length]), s[4 + length..]))
  }

  function Take(shape: Shape, s: Bytes): Reading<Field> {
    var r := TakeRaw(shape, s);
    if r.Some? && Acceptable(shape, r.value.0) then r else None
  }

  function TakeAll(shapes: seq<Shape>, s: Bytes): Reading<seq<Field>>
    decreases |shapes|
  {
    if shapes == [] then Some(([], s))
    else
      var first := Take(shapes[0], s);
      if first.None? then None
      else
        var rest := TakeAll(shapes[1..], first.value.1);
        if rest.None? then None else Some(([first.value.0] + rest.value.0, rest.value.1))
  }

  lemma TakePut(shape: Shape, f: Field, rest: Bytes)
    requires Fits(shape, f)
    ensures Take(shape, Put(f) + rest) == Some((f, rest))
  {
    hide LittleEndian, NumberOf, Pow256, ValidIdentifier;
    Widths();
    match f {
      case Number(width, value) =>
        NumberRoundTrip(value, width);
        var s := LittleEndian(value, width) + rest;
        assert s[..width] == LittleEndian(value, width) && s[width..] == rest;
      case Text(text) =>
        NumberRoundTrip(|text|, 4);
        var s := Blob(text) + rest;
        assert s[..4] == LittleEndian(|text|, 4) && s[4..4 + |text|] == text && s[4 + |text|..] == rest;
    }
  }

  /** A record that fits is read back field by field, and what follows it is left alone. */
  lemma {:induction false} TakeAllPut(shapes: seq<Shape>, fields: seq<Field>, rest: Bytes)
    requires AllFit(shapes, fields)
    ensures TakeAll(shapes, PutAll(fields) + rest) == Some((fields, rest))
    decreases |fields|
  {
    hide Fits, Take, Put;
    if fields == [] {
      assert PutAll(fields) + rest == rest;
    } else {
      var later := PutAll(fields[1..]) + rest;
      assert PutAll(fields) + rest == Put(fields[0]) + later;
      assert Fits(shapes[0], fields[0]);
      TakePut(shapes[0], fields[0], later);
      TakeAllPut(shapes[1..], fields[1..], rest);
      assert [fields[0]] + fields[1..] == fields;
    }
  }

  // ---- Lists --------------------------------------------------------------------------------

  type Encoder<!T> = T -> Bytes
  type Decoder<!T> = Bytes -> Reading<T>

  function PutList<T>(put: Encoder<T>, xs: seq<T>): Bytes {
    if xs == [] then [] else put(xs[0]) + PutList(put, xs[1..])
  }

  function TakeList<T>(take: Decoder<T>, count: nat, s: Bytes): Reading<seq<T>>
    decreases count
  {
    if count == 0 then Some(([], s))
    else
      var first := take(s);
      if first.None? then None
      else
        var rest := TakeList(take, count - 1, first.value.1);
        if rest.None? then None else Some(([first.value.0] + rest.value.0, rest.value.1))
  }

  /** The decoder undoes the encoder on this value, whatever follows. */
  ghost predicate Inverts<T(!new)>(put: Encoder<T>, take: Decoder<T>, x: T) {
    forall rest: Bytes :: take(put(x) + rest) == Some((x, rest))
  }

  lemma {:induction false} TakeListPut<T(!new)>(put: Encoder<T>, take: Decoder<T>, xs: seq<T>, rest: Bytes)
    requires forall i :: 0 <= i < |xs| ==> Inverts(put, take, xs[i])
    ensures TakeList(take, |xs|, PutList(put, xs) + rest) == Some((xs, rest))
    decreases |xs|
  {
    if xs == [] {
      assert PutList(put, xs) + rest == rest;
    } else {
      var later := PutList(put, xs[1..]) + rest;
      assert PutList(put, xs) + rest == put(xs[0]) + later;
      assert Inverts(put, take, xs[0]);
      TakeListPut(put, take, xs[1..], rest);
      assert [xs[0]] + xs[1..] == xs;
    }
  }

  /** A counted list: the count first, checked against a limit before anything is read. */
  function PutCounted<T>(width: nat, put: Encoder<T>, xs: seq<T>): Bytes {
    LittleEndian(|xs|, width) + PutList(put, xs)
  }

  function TakeCounted<T>(width: nat, take: Decoder<T>, max: nat, s: Bytes): Reading<seq<T>> {
    if |s| < width || NumberOf(s[..width]) > max then None
    else TakeList(take, NumberOf(s[..width]), s[width..])
  }

  lemma TakeCountedPut<T(!new)>(width: nat, put: Encoder<T>, take: Decoder<T>, max: nat, xs: seq<T>, rest: Bytes)
    requires forall i :: 0 <= i < |xs| ==> Inverts(put, take, xs[i])
    requires |xs| <= max && |xs| < Pow256(width)
    ensures TakeCounted(width, take, max, PutCounted(width, put, xs) + rest) == Some((xs, rest))
  {
    hide LittleEndian, NumberOf, Pow256, TakeList, PutList, Inverts;
    var s := PutCounted(width, put, xs) + rest;
    NumberRoundTrip(|xs|, width);
    assert s[..width] == LittleEndian(|xs|, width) && s[width..] == PutList(put, xs) + rest;
    TakeListPut(put, take, xs, rest);
  }
}
