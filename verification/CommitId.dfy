/** The bytes a commit id is derived from: framing and the canonical JSON writer. */
module CommitId {
  import opened Bytes
  import opened Records

  /** A JSON value as stored; a number is its text. */
  datatype Json =
    | Null
    | Bool(value: bool)
    | Num(text: Bytes)
    | Str(text: Bytes)
    | Arr(items: seq<Json>)
    | Obj(fields: map<Bytes, Json>)

  predicate NumberByte(c: Byte) {
    ('0' <= c <= '9') || c == '-' || c == '+' || c == '.' || c == 'e' || c == 'E'
  }

  /** Number texts are nonempty and made of number characters. */
  ghost predicate Wf(v: Json) {
    match v
    case Num(t) => t != [] && forall i :: 0 <= i < |t| ==> NumberByte(t[i])
    case Arr(items) => forall i :: 0 <= i < |items| ==> Wf(items[i])
    case Obj(m) => forall k :: k in m ==> Wf(m[k])
    case _ => true
  }

  // ---- The writer ----

  function Hex(n: nat): Byte
    requires n < 16
  {
    "0123456789abcdef"[n]
  }

  /** The escape of one byte inside a string. */
  function Escaped(c: Byte): Bytes {
    if c == '\"' then ['\\', '\"']
    else if c == '\\' then ['\\', '\\']
    else if c == 8 as char then ['\\', 'b']
    else if c == 12 as char then ['\\', 'f']
    else if c == 10 as char then ['\\', 'n']
    else if c == 13 as char then ['\\', 'r']
    else if c == 9 as char then ['\\', 't']
    else if c < 32 as char then ['\\', 'u', '0', '0', Hex((c as int) / 16), Hex((c as int) % 16)]
    else [c]
  }

  /** The string's escapes and the closing quote. */
  function StringTail(s: Bytes): Bytes {
    if s == [] then ['\"'] else Escaped(s[0]) + StringTail(s[1..])
  }

  function Quoted(s: Bytes): Bytes {
    ['\"'] + StringTail(s)
  }

  /** The bytes of a value; object members come in ascending key order. */
  ghost function Write(v: Json): Bytes
    decreases v, 1, 0
  {
    match v
    case Null => "null"
    case Bool(b) => if b then "true" else "false"
    case Num(t) => t
    case Str(s) => Quoted(s)
    case Arr(items) => ['['] + Items(v, 0)
    case Obj(m) => ['{'] + Members(v, Sorted(m.Keys), 0)
  }

  /** What comes before entry i. */
  function Comma(i: nat): Bytes {
    if i > 0 then [','] else []
  }

  ghost function Items(v: Json, i: nat): Bytes
    requires v.Arr? && i <= |v.items|
    decreases v, 0, |v.items| - i
  {
    if i == |v.items| then [']'] else Comma(i) + Write(v.items[i]) + Items(v, i + 1)
  }

  ghost function Members(v: Json, keys: seq<Bytes>, i: nat): Bytes
    requires v.Obj? && i <= |keys| && forall k :: k in keys ==> k in v.fields
    decreases v, 0, |keys| - i
  {
    if i == |keys| then ['}'] else Comma(i) + Member(v, keys[i]) + Members(v, keys, i + 1)
  }

  ghost function Member(v: Json, k: Bytes): Bytes
    requires v.Obj? && k in v.fields
    decreases v, 0, 0
  {
    Quoted(k) + [':'] + Write(v.fields[k])
  }

  lemma AppendTwo(before: Bytes, a: Bytes, b: Bytes, rest: Bytes)
    ensures before + a + b + rest == before + (a + b + rest)
    ensures a == [] ==> before + b + rest == before + (a + b + rest)
  {
  }

  class Buffer {
    var data: Bytes

    constructor ()
      ensures data == []
    {
      data := [];
    }

    method Extend(bytes: Bytes)
      modifies this
      ensures data == old(data) + bytes
    {
      data := data + bytes;
    }
  }

  method WriteString(s: Bytes, out: Buffer)
    modifies out
    ensures out.data == old(out.data) + Quoted(s)
  {
    out.Extend(['\"']);
    for i := 0 to |s|
      invariant out.data + StringTail(s[i..]) == old(out.data) + Quoted(s)
    {
      assert s[i..][1..] == s[i + 1..];
      assert out.data + (Escaped(s[i]) + StringTail(s[i + 1..])) == (out.data + Escaped(s[i])) + StringTail(s[i + 1..]);
      out.Extend(Escaped(s[i]));
    }
    out.Extend(['\"']);
  }

  /** jcs: appends the canonical bytes of v. */
  method Jcs(v: Json, out: Buffer)
    modifies out
    ensures out.data == old(out.data) + Write(v)
    decreases v, 1
  {
    match v {
      case Null => out.Extend("null");
      case Bool(b) => out.Extend(if b then "true" else "false");
      case Num(t) => out.Extend(t);
      case Str(s) => WriteString(s, out);
      case Arr(items) => WriteItems(v, out);
      case Obj(m) => WriteMembers(v, out);
    }
  }

  method WriteItems(v: Json, out: Buffer)
    requires v.Arr?
    modifies out
    ensures out.data == old(out.data) + Write(v)
    decreases v, 0, 1
  {
    out.Extend(['[']);
    for i := 0 to |v.items|
      invariant out.data + Items(v, i) == old(out.data) + Write(v)
    {
      ghost var before := out.data;
      if i > 0 {
        out.Extend([',']);
      }
      Jcs(v.items[i], out);
      AppendTwo(before, Comma(i), Write(v.items[i]), Items(v, i + 1));
    }
    out.Extend([']']);
  }

  method WriteMember(v: Json, k: Bytes, out: Buffer)
    requires v.Obj? && k in v.fields
    modifies out
    ensures out.data == old(out.data) + Member(v, k)
    decreases v, 0, 0
  {
    WriteString(k, out);
    out.Extend([':']);
    Jcs(v.fields[k], out);
  }

  method WriteMembers(v: Json, out: Buffer)
    requires v.Obj?
    modifies out
    ensures out.data == old(out.data) + Write(v)
    decreases v, 0, 1
  {
    out.Extend(['{']);
    var keys := SortKeys(v.fields.Keys);
    for i := 0 to |keys|
      invariant out.data + Members(v, keys, i) == old(out.data) + Write(v)
    {
      ghost var before := out.data;
      if i > 0 {
        out.Extend([',']);
      }
      assert keys[i] in keys;
      WriteMember(v, keys[i], out);
      AppendTwo(before, Comma(i), Member(v, keys[i]), Members(v, keys, i + 1));
    }
    out.Extend(['}']);
  }

  // ---- Reading ----

  function HexValue(c: Byte): Option<nat> {
    if '0' <= c <= '9' then Some((c as int - '0' as int) as nat)
    else if 'a' <= c <= 'f' then Some((c as int - 'a' as int + 10) as nat)
    else if 'A' <= c <= 'F' then Some((c as int - 'A' as int + 10) as nat)
    else None
  }

  /** The byte that a backslash and a letter stand for (section 7 of RFC 8259). */
  function Unescaped(c: Byte): Option<Byte> {
    match c
    case '\"' => Some('\"')
    case '\\' => Some('\\')
    case '/' => Some('/')
    case 'b' => Some(8 as char)
    case 'f' => Some(12 as char)
    case 'n' => Some(10 as char)
    case 'r' => Some(13 as char)
    case 't' => Some(9 as char)
    case _ => None
  }

  /** The byte below 128 that four hexadecimal digits name. */
  function CodePoint(a: Byte, b: Byte, c: Byte, d: Byte): Option<Byte> {
    if HexValue(a) != Some(0) || HexValue(b) != Some(0) || HexValue(c).None? || HexValue(d).None? then None
    else
      var n := 16 * HexValue(c).value + HexValue(d).value;
      if n < 128 then Some(n as char) else None
  }

  function Prepended(c: Byte, r: Option<(Bytes, Bytes)>): Option<(Bytes, Bytes)> {
    match r
    case Some((s, rest)) => Some(([c] + s, rest))
    case None => None
  }

  /** Reads a string literal after its opening quote: the string, and what follows the closing quote. */
  function ReadTail(s: Bytes): (r: Option<(Bytes, Bytes)>)
    ensures r.Some? ==> |r.value.1| < |s|
    decreases |s|
  {
    if s == [] then None
    else if s[0] == '\"' then Some(([], s[1..]))
    else if s[0] != '\\' then if s[0] < 32 as char then None else Prepended(s[0], ReadTail(s[1..]))
    else if |s| >= 2 && Unescaped(s[1]).Some? then Prepended(Unescaped(s[1]).value, ReadTail(s[2..]))
    else if |s| >= 6 && s[1] == 'u' && CodePoint(s[2], s[3], s[4], s[5]).Some? then
      Prepended(CodePoint(s[2], s[3], s[4], s[5]).value, ReadTail(s[6..]))
    else None
  }

  /** How many number characters begin s. */
  function NumberLength(s: Bytes): (n: nat)
    ensures n <= |s| && (n < |s| ==> !NumberByte(s[n])) && forall i :: 0 <= i < n ==> NumberByte(s[i])
  {
    if s != [] && NumberByte(s[0]) then 1 + NumberLength(s[1..]) else 0
  }

  /** Reads a value without white space, the keys of an object ascending, and gives what follows it. */
  function ReadValue(s: Bytes): (r: Option<(Json, Bytes)>)
    ensures r.Some? ==> |r.value.1| < |s|
    decreases |s|, 0
  {
    if s == [] then None
    else if "null" <= s then Some((Null, s[4..]))
    else if "true" <= s then Some((Bool(true), s[4..]))
    else if "false" <= s then Some((Bool(false), s[5..]))
    else if s[0] == '\"' then
      match ReadTail(s[1..])
      case Some((t, rest)) => Some((Str(t), rest))
      case None => None
    else if s[0] == '[' then
      if |s| > 1 && s[1] == ']' then Some((Arr([]), s[2..]))
      else
        match ReadItems(s[1..])
        case Some((items, rest)) => Some((Arr(items), rest))
        case None => None
    else if s[0] == '{' then
      if |s| > 1 && s[1] == '}' then Some((Obj(map[]), s[2..]))
      else
        match ReadMembers(s[1..], None)
        case Some((fields, rest)) => Some((Obj(fields), rest))
        case None => None
    else if NumberLength(s) > 0 then Some((Num(s[..NumberLength(s)]), s[NumberLength(s)..]))
    else None
  }

  /** One or more values with commas between them, up to the closing bracket. */
  function ReadItems(s: Bytes): (r: Option<(seq<Json>, Bytes)>)
    ensures r.Some? ==> |r.value.1| < |s|
    decreases |s|, 1
  {
    match ReadValue(s)
    case None => None
    case Some((v, rest)) =>
      if rest != [] && rest[0] == ']' then Some(([v], rest[1..]))
      else if rest != [] && rest[0] == ',' then
        match ReadItems(rest[1..])
        case Some((items, end)) => Some(([v] + items, end))
        case None => None
      else None
  }

  /** One or more members with commas between them, up to the closing brace; every key comes after the one before. */
  function ReadMembers(s: Bytes, last: Option<Bytes>): (r: Option<(map<Bytes, Json>, Bytes)>)
    ensures r.Some? ==> |r.value.1| < |s|
    decreases |s|, 1
  {
    match ReadKey(s)
    case None => None
    case Some((k, after)) =>
      if last.Some? && !Less(last.value, k) then None
      else
        match ReadValue(after)
        case None => None
        case Some((v, rest)) =>
          if rest != [] && rest[0] == '}' then Some((map[k := v], rest[1..]))
          else if rest != [] && rest[0] == ',' then
            match ReadMembers(rest[1..], Some(k))
            case Some((fields, end)) => Some((fields[k := v], end))
            case None => None
          else None
  }

  /** A key and its colon. */
  function ReadKey(s: Bytes): (r: Option<(Bytes, Bytes)>)
    ensures r.Some? ==> |r.value.1| < |s|
    decreases |s|, 0
  {
    if s == [] || s[0] != '\"' then None
    else
      match ReadTail(s[1..])
      case Some((k, rest)) => if rest != [] && rest[0] == ':' then Some((k, rest[1..])) else None
      case None => None
  }

  // ---- What was written is read back ----

  lemma {:induction false} TailReads(s: Bytes, x: Bytes)
    ensures ReadTail(StringTail(s) + x) == Some((s, x))
    decreases |s|
  {
    var t := StringTail(s) + x;
    if s == [] {
      assert t[1..] == x;
    } else {
      var e, rest := Escaped(s[0]), StringTail(s[1..]) + x;
      assert t == e + rest;
      TailReads(s[1..], x);
      assert s == [s[0]] + s[1..];
      EscapeForms(s[0]);
      EscapeReads(s[0], e, rest);
    }
  }

  /** The three forms of an escape: the byte itself, a letter that stands for it, its code. */
  lemma EscapeForms(c: Byte)
    ensures var e := Escaped(c);
      || (e == [c] && c != '\"' && c != '\\' && c >= 32 as char)
      || (|e| == 2 && e[0] == '\\' && Unescaped(e[1]) == Some(c))
      || (|e| == 6 && e[0] == '\\' && e[1] == 'u' && CodePoint(e[2], e[3], e[4], e[5]) == Some(c))
  {
    var e := Escaped(c);
    if |e| == 6 {
      HexReads((c as int) / 16);
      HexReads((c as int) % 16);
      assert CodePoint('0', '0', e[4], e[5]) == Some(c);
    }
  }

  /** Each escape is read back as the one byte it stands for. */
  lemma EscapeReads(c: Byte, e: Bytes, rest: Bytes)
    requires || (e == [c] && c != '\"' && c != '\\' && c >= 32 as char)
             || (|e| == 2 && e[0] == '\\' && Unescaped(e[1]) == Some(c))
             || (|e| == 6 && e[0] == '\\' && e[1] == 'u' && CodePoint(e[2], e[3], e[4], e[5]) == Some(c))
    ensures ReadTail(e + rest) == Prepended(c, ReadTail(rest))
  {
    assert (e + rest)[|e|..] == rest;
  }

  lemma HexReads(n: nat)
    requires n < 16
    ensures HexValue(Hex(n)) == Some(n)
  {
  }

  /** A literal is read back whole, whatever follows it. */
  lemma QuotedReads(s: Bytes, x: Bytes)
    ensures Quoted(s) + x != [] && (Quoted(s) + x)[0] == '\"' && ReadTail((Quoted(s) + x)[1..]) == Some((s, x))
  {
    assert (Quoted(s) + x)[1..] == StringTail(s) + x;
    TailReads(s, x);
  }

  /** So string literals are prefix-free. */
  lemma QuotedUnique(a: Bytes, x: Bytes, b: Bytes, y: Bytes)
    requires Quoted(a) + x == Quoted(b) + y
    ensures a == b && x == y
  {
    QuotedReads(a, x);
    QuotedReads(b, y);
  }

  /** What may follow a value: nothing, or a byte that closes or continues the surrounding one. */
  predicate Delimited(x: Bytes) {
    x == [] || x[0] == ',' || x[0] == ']' || x[0] == '}'
  }

  lemma NumberReads(t: Bytes, x: Bytes)
    requires t != [] && (forall i :: 0 <= i < |t| ==> NumberByte(t[i])) && Delimited(x)
    ensures ReadValue(t + x) == Some((Num(t), x))
  {
    var s := t + x;
    var n := NumberLength(s);
    assert forall i :: 0 <= i < |t| ==> s[i] == t[i];
    assert |t| < |s| ==> s[|t|] == x[0];
    assert n == |t|;
    assert s[..|t|] == t && s[|t|..] == x && NumberByte(s[0]);
  }

  lemma BoolReads(b: bool, x: Bytes)
    ensures ReadValue(Write(Bool(b)) + x) == Some((Bool(b), x))
  {
    var t := Write(Bool(b));
    assert (t + x)[|t|..] == x && t <= t + x && (t + x)[0] == t[0];
  }

  lemma OpensArray(s: Bytes)
    requires |s| > 1 && s[0] == '['
    ensures s[1] == ']' ==> ReadValue(s) == Some((Arr([]), s[2..]))
    ensures s[1] != ']' && ReadItems(s[1..]).Some? ==>
      ReadValue(s) == Some((Arr(ReadItems(s[1..]).value.0), ReadItems(s[1..]).value.1))
  {
  }

  lemma OpensObject(s: Bytes)
    requires |s| > 1 && s[0] == '{'
    ensures s[1] == '}' ==> ReadValue(s) == Some((Obj(map[]), s[2..]))
    ensures s[1] != '}' && ReadMembers(s[1..], None).Some? ==>
      ReadValue(s) == Some((Obj(ReadMembers(s[1..], None).value.0), ReadMembers(s[1..], None).value.1))
  {
  }

  lemma ItemsStep(s: Bytes, v: Json, rest: Bytes)
    requires ReadValue(s) == Some((v, rest)) && rest != []
    ensures rest[0] == ']' ==> ReadItems(s) == Some(([v], rest[1..]))
    ensures rest[0] == ',' && ReadItems(rest[1..]).Some? ==>
      ReadItems(s) == Some(([v] + ReadItems(rest[1..]).value.0, ReadItems(rest[1..]).value.1))
  {
  }

  lemma MembersStep(s: Bytes, last: Option<Bytes>, k: Bytes, after: Bytes, v: Json, rest: Bytes)
    requires ReadKey(s) == Some((k, after)) && (last.Some? ==> Less(last.value, k))
    requires ReadValue(after) == Some((v, rest)) && rest != []
    ensures rest[0] == '}' ==> ReadMembers(s, last) == Some((map[k := v], rest[1..]))
    ensures rest[0] == ',' && ReadMembers(rest[1..], Some(k)).Some? ==>
      ReadMembers(s, last)
        == Some((ReadMembers(rest[1..], Some(k)).value.0[k := v], ReadMembers(rest[1..], Some(k)).value.1))
  {
  }

  /** A value never begins like the end of an array or an object. */
  lemma WriteStarts(v: Json)
    requires Wf(v)
    ensures Write(v) != [] && Write(v)[0] != ']' && Write(v)[0] != '}'
  {
  }

  /** Every value is read back from its canonical text, wherever a delimiter or the end follows it. */
  lemma {:induction false} WriteReads(v: Json, x: Bytes)
    requires Wf(v) && Delimited(x)
    ensures ReadValue(Write(v) + x) == Some((v, x))
    decreases v, 1, 0
  {
    var s := Write(v) + x;
    match v {
      case Null => assert s[4..] == x && "null" <= s;
      case Bool(b) => BoolReads(b, x);
      case Num(t) => NumberReads(t, x);
      case Str(t) => QuotedReads(t, x);
      case Arr(items) => ArrReads(v, x);
      case Obj(m) => ObjReads(v, x);
    }
  }

  lemma ArrReads(v: Json, x: Bytes)
    requires v.Arr? && Wf(v)
    ensures ReadValue(Write(v) + x) == Some((v, x))
    decreases v, 0, |v.items| + 1
  {
    var p := Items(v, 0) + x;
    assert Write(v) + x == ['['] + p && (['['] + p)[1..] == p;
    if v.items == [] {
      assert p == [']'] + x && (['['] + p)[2..] == x;
    } else {
      ItemAt(v, 0, x);
      ItemsRead(v, x, 0);
      assert v.items[0..] == v.items;
    }
    OpensArray(['['] + p);
  }

  /** The text from item i on. */
  ghost function ItemsAt(v: Json, i: nat, x: Bytes): Bytes
    requires v.Arr? && i < |v.items|
  {
    Write(v.items[i]) + (Items(v, i + 1) + x)
  }

  /** An item follows a comma, but for the first. */
  lemma ItemAt(v: Json, i: nat, x: Bytes)
    requires v.Arr? && Wf(v) && i < |v.items|
    ensures var p := Items(v, i) + x;
      if i == 0 then p == ItemsAt(v, i, x) && p[0] != ']' else p[0] == ',' && p[1..] == ItemsAt(v, i, x)
  {
    WriteStarts(v.items[i]);
    var w, rest := Write(v.items[i]), Items(v, i + 1);
    assert Comma(i) + w + rest + x == Comma(i) + (w + (rest + x));
  }

  lemma {:induction false} ItemsRead(v: Json, x: Bytes, i: nat)
    requires v.Arr? && Wf(v) && i < |v.items|
    ensures ReadItems(ItemsAt(v, i, x)) == Some((v.items[i..], x))
    decreases v, 0, |v.items| - i
  {
    var p := Items(v, i + 1) + x;
    assert v.items[i..] == [v.items[i]] + v.items[i + 1..];
    if i + 1 == |v.items| {
      assert p == [']'] + x && p[1..] == x && v.items[i..] == [v.items[i]];
    } else {
      ItemAt(v, i + 1, x);
      ItemsRead(v, x, i + 1);
    }
    WriteReads(v.items[i], p);
    ItemsStep(Write(v.items[i]) + p, v.items[i], p);
  }

  lemma ObjReads(v: Json, x: Bytes)
    requires v.Obj? && Wf(v)
    ensures ReadValue(Write(v) + x) == Some((v, x))
    decreases v, 0, |v.fields| + 1
  {
    var keys := Sorted(v.fields.Keys);
    var p := Members(v, keys, 0) + x;
    assert Write(v) + x == ['{'] + p && (['{'] + p)[1..] == p;
    if keys == [] {
      assert p == ['}'] + x && (['{'] + p)[2..] == x && v.fields == map[];
    } else {
      MemberAt(v, keys, 0, x);
      MembersRead(v, x, 0);
      FieldsWhole(v);
    }
    OpensObject(['{'] + p);
  }

  /** The entries of an object under the keys from place i on. */
  ghost function FieldsFrom(v: Json, keys: seq<Bytes>, i: nat): map<Bytes, Json>
    requires v.Obj? && i <= |keys| && forall k :: k in keys ==> k in v.fields
  {
    map k | k in keys[i..] :: v.fields[k]
  }

  lemma KeyReads(k: Bytes, p: Bytes)
    ensures ReadKey(Quoted(k) + ([':'] + p)) == Some((k, p))
  {
    QuotedReads(k, [':'] + p);
    assert ([':'] + p)[1..] == p;
  }

  lemma FieldsWhole(v: Json)
    requires v.Obj?
    ensures FieldsFrom(v, Sorted(v.fields.Keys), 0) == v.fields
  {
  }

  /** The text from the key at place i on. */
  ghost function MembersAt(v: Json, keys: seq<Bytes>, i: nat, x: Bytes): Bytes
    requires v.Obj? && i < |keys| && forall k :: k in keys ==> k in v.fields
  {
    Quoted(keys[i]) + ([':'] + (Write(v.fields[keys[i]]) + (Members(v, keys, i + 1) + x)))
  }

  /** A member follows a comma, but for the first. */
  lemma MemberAt(v: Json, keys: seq<Bytes>, i: nat, x: Bytes)
    requires v.Obj? && i < |keys| && forall k :: k in keys ==> k in v.fields
    ensures var p := Members(v, keys, i) + x;
      if i == 0 then p == MembersAt(v, keys, i, x) && p[0] == '\"'
      else p[0] == ',' && p[1..] == MembersAt(v, keys, i, x)
  {
    MemberSplit(v, keys, i, x);
  }

  lemma {:induction false} MembersRead(v: Json, x: Bytes, i: nat)
    requires v.Obj? && Wf(v) && i < |v.fields|
    ensures var keys := Sorted(v.fields.Keys);
      ReadMembers(MembersAt(v, keys, i, x), if i == 0 then None else Some(keys[i - 1]))
        == Some((FieldsFrom(v, keys, i), x))
    decreases v, 0, |v.fields| - i
  {
    var keys := Sorted(v.fields.Keys);
    var p := Members(v, keys, i + 1) + x;
    var last := if i == 0 then None else Some(keys[i - 1]);
    if i > 0 {
      SortedAscends(v.fields.Keys, i - 1, i);
    }
    if i + 1 == |keys| {
      assert p == ['}'] + x && p[1..] == x;
    } else {
      MemberAt(v, keys, i + 1, x);
      MembersRead(v, x, i + 1);
    }
    MemberRead(v, keys, i, p, last);
    FieldsStep(v, keys, i);
  }

  /** One member and what follows it. */
  lemma MemberRead(v: Json, keys: seq<Bytes>, i: nat, p: Bytes, last: Option<Bytes>)
    requires v.Obj? && Wf(v) && i < |keys| && forall k :: k in keys ==> k in v.fields
    requires Delimited(p) && p != [] && (last.Some? ==> Less(last.value, keys[i]))
    ensures var s, w := Quoted(keys[i]) + ([':'] + (Write(v.fields[keys[i]]) + p)), v.fields[keys[i]];
      && (p[0] == '}' ==> ReadMembers(s, last) == Some((map[keys[i] := w], p[1..])))
      && (p[0] == ',' && ReadMembers(p[1..], Some(keys[i])).Some? ==>
        ReadMembers(s, last)
        == Some((ReadMembers(p[1..], Some(keys[i])).value.0[keys[i] := w], ReadMembers(p[1..], Some(keys[i])).value.1)))
    decreases v, 0, 0
  {
    var w := v.fields[keys[i]];
    assert keys[i] in keys;
    KeyReads(keys[i], Write(w) + p);
    WriteReads(w, p);
    MembersStep(Quoted(keys[i]) + ([':'] + (Write(w) + p)), last, keys[i], Write(w) + p, w, p);
  }

  lemma FieldsStep(v: Json, keys: seq<Bytes>, i: nat)
    requires v.Obj? && i < |keys| && forall k :: k in keys ==> k in v.fields
    ensures FieldsFrom(v, keys, i) == FieldsFrom(v, keys, i + 1)[keys[i] := v.fields[keys[i]]]
    ensures i + 1 == |keys| ==> FieldsFrom(v, keys, i) == map[keys[i] := v.fields[keys[i]]]
  {
    assert keys[i..] == [keys[i]] + keys[i + 1..];
  }

  lemma MemberSplit(v: Json, keys: seq<Bytes>, i: nat, x: Bytes)
    requires v.Obj? && i < |keys| && forall k :: k in keys ==> k in v.fields
    ensures Members(v, keys, i) + x
      == Comma(i) + (Quoted(keys[i]) + ([':'] + (Write(v.fields[keys[i]]) + (Members(v, keys, i + 1) + x))))
  {
    var a, b, c, d := Comma(i), Quoted(keys[i]), Write(v.fields[keys[i]]), Members(v, keys, i + 1);
    assert Members(v, keys, i) == a + (b + [':'] + c) + d;
    FlattenFour(a, b, [':'], c, d, x);
  }

  lemma FlattenFour(a: Bytes, b: Bytes, m: Bytes, c: Bytes, d: Bytes, x: Bytes)
    ensures a + (b + m + c) + d + x == a + (b + (m + (c + (d + x))))
  {
    assert b + m + c + (d + x) == b + (m + (c + (d + x)));
    assert a + (b + m + c) + d + x == a + (b + m + c + (d + x));
  }

  /**
   * So the canonical writer is injective, and its output can be cut out of any text
   * in which a delimiter or the end follows it.
   */
  lemma WriteUnique(v: Json, x: Bytes, w: Json, y: Bytes)
    requires Wf(v) && Wf(w) && Delimited(x) && Delimited(y) && Write(v) + x == Write(w) + y
    ensures v == w && x == y
  {
    WriteReads(v, x);
    WriteReads(w, y);
  }
}
