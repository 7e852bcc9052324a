/** JSON payloads, their canonical form under recursive key sorting, and the text that is signed. */
module CanonicalJson {
  import opened TimedStore

  datatype Json =
    | Null
    | Bool(value: bool)
    | Number(digits: string)
    | Text(text: string)
    | Arr(items: Items)
    | Obj(fields: Fields)

  datatype Items = NoItems | Item(head: Json, tail: Items)

  datatype Fields = NoFields | Field(key: string, content: Json, rest: Fields)

  predicate NumChar(c: char) { '0' <= c <= '9' || c in "+-.eE" }

  /** Numbers are written with number characters, and no object has a key twice. */
  predicate WellFormed(j: Json) {
    match j
    case Number(d) => d != "" && forall i :: 0 <= i < |d| ==> NumChar(d[i])
    case Arr(items) => WellFormedItems(items)
    case Obj(fields) => WellFormedFields(fields)
    case _ => true
  }

  /** Everything that Python writes for an `int` or a finite `float` is covered, and so are any text, true, false
      and null. */
  lemma ScalarsAreWellFormed(d: string, text: string, b: bool)
    requires d != "" && forall i: nat :: i < |d| ==> d[i] in "0123456789+-.eE"
    ensures WellFormed(Number(d)) && WellFormed(Text(text)) && WellFormed(Bool(b)) && WellFormed(Null)
  {
    forall i | 0 <= i < |d| ensures NumChar(d[i]) {
      assert d[i] in "0123456789" || d[i] in "+-.eE";
    }
  }

  predicate WellFormedItems(i: Items) { i.Item? ==> WellFormed(i.head) && WellFormedItems(i.tail) }

  predicate WellFormedFields(f: Fields) {
    f.Field? ==> WellFormed(f.content) && f.key !in Keys(f.rest) && WellFormedFields(f.rest)
  }

  function Keys(f: Fields): set<string> { if f.NoFields? then {} else {f.key} + Keys(f.rest) }

  function Get(f: Fields, k: string): Json
    requires k in Keys(f)
  {
    if f.key == k then f.content else Get(f.rest, k)
  }

  // ---------------------------------------------------------------- objects are unordered

  /** Equal but for the order of object keys, at every depth. */
  predicate Equivalent(a: Json, b: Json) {
    match (a, b)
    case (Arr(x), Arr(y)) => EquivalentItems(x, y)
    case (Obj(x), Obj(y)) => Keys(x) == Keys(y) && EquivalentFields(x, y)
    case _ => a == b
  }

  predicate EquivalentItems(x: Items, y: Items) {
    if x.NoItems? then y.NoItems?
    else y.Item? && Equivalent(x.head, y.head) && EquivalentItems(x.tail, y.tail)
  }

  predicate EquivalentFields(x: Fields, y: Fields) {
    x.Field? ==> x.key in Keys(y) && Equivalent(x.content, Get(y, x.key)) && EquivalentFields(x.rest, y)
  }

  // ---------------------------------------------------------------- sorting keys

  /** Strings compared character by character. */
  predicate Before(a: string, b: string) {
    b != "" && (a == "" || a[0] < b[0] || (a[0] == b[0] && Before(a[1..], b[1..])))
  }

  lemma {:induction false} BeforeTotal(a: string, b: string)
    ensures a == b || Before(a, b) || Before(b, a)
    ensures !(Before(a, b) && Before(b, a)) && !Before(a, a)
  {
    if a != "" {
      BeforeTotal(a[1..], a[1..]);
      if b != "" {
        BeforeTotal(a[1..], b[1..]);
        assert a == [a[0]] + a[1..] && b == [b[0]] + b[1..];
      }
    }
  }

  lemma {:induction false} BeforeTransitive(a: string, b: string, c: string)
    requires Before(a, b) && Before(b, c)
    ensures Before(a, c)
  {
    if a != "" && a[0] == b[0] == c[0] {
      BeforeTransitive(a[1..], b[1..], c[1..]);
    }
  }

  function Insert(k: string, v: Json, f: Fields): Fields {
    if f.Field? && Before(f.key, k) then Field(f.key, f.content, Insert(k, v, f.rest)) else Field(k, v, f)
  }

  /** The payload with the keys of every object sorted. */
  function Canon(j: Json): Json {
    match j
    case Arr(items) => Arr(CanonItems(items))
    case Obj(fields) => Obj(CanonFields(fields))
    case _ => j
  }

  function CanonItems(i: Items): Items { if i.NoItems? then i else Item(Canon(i.head), CanonItems(i.tail)) }

  function CanonFields(f: Fields): Fields {
    if f.NoFields? then f else Insert(f.key, Canon(f.content), CanonFields(f.rest))
  }

  ghost predicate Sorted(f: Fields) {
    f.Field? ==> (forall k :: k in Keys(f.rest) ==> Before(f.key, k)) && Sorted(f.rest)
  }

  lemma {:induction false} InsertSorted(k: string, v: Json, f: Fields)
    requires Sorted(f) && k !in Keys(f)
    ensures Sorted(Insert(k, v, f)) && Keys(Insert(k, v, f)) == Keys(f) + {k}
    ensures Get(Insert(k, v, f), k) == v
    ensures forall l :: l in Keys(f) ==> Get(Insert(k, v, f), l) == Get(f, l)
  {
    if f.Field? {
      BeforeTotal(f.key, k);
      if Before(f.key, k) {
        InsertSorted(k, v, f.rest);
      } else {
        forall l | l in Keys(f) ensures Before(k, l) {
          if l != f.key { BeforeTransitive(k, f.key, l); }
        }
      }
    }
  }

  lemma {:induction false} CanonFieldsOk(f: Fields)
    requires WellFormedFields(f)
    ensures Sorted(CanonFields(f)) && Keys(CanonFields(f)) == Keys(f)
    ensures forall k :: k in Keys(f) ==> Get(CanonFields(f), k) == Canon(Get(f, k))
  {
    if f.Field? {
      CanonFieldsOk(f.rest);
      InsertSorted(f.key, Canon(f.content), CanonFields(f.rest));
    }
  }

  lemma SortedKeysNotIn(f: Fields)
    requires Sorted(f) && f.Field?
    ensures f.key !in Keys(f.rest)
  {
    BeforeTotal(f.key, f.key);
  }

  /** Sorted fields are determined by their keys and what the keys hold. */
  lemma {:induction false} SortedUnique(f: Fields, g: Fields)
    requires Sorted(f) && Sorted(g) && Keys(f) == Keys(g)
    requires forall k :: k in Keys(f) ==> Get(f, k) == Get(g, k)
    ensures f == g
  {
    if f.Field? {
      assert f.key in Keys(g);
      assert g.key in Keys(f);
      BeforeTotal(f.key, g.key);
      assert f.key == g.key;
      SortedKeysNotIn(f);
      SortedKeysNotIn(g);
      assert Keys(f.rest) == Keys(f) - {f.key} == Keys(g.rest);
      forall k | k in Keys(f.rest) ensures Get(f.rest, k) == Get(g.rest, k) {
        assert Get(f, k) == Get(g, k);
      }
      SortedUnique(f.rest, g.rest);
    } else if g.Field? {
      assert false;
    }
  }

  // ---------------------------------------------------------------- one canonical form per class

  lemma {:induction false} WellFormedGet(f: Fields, k: string)
    requires WellFormedFields(f) && k in Keys(f)
    ensures WellFormed(Get(f, k))
  {
    if f.key != k {
      WellFormedGet(f.rest, k);
    }
  }

  /** Two payloads have the same canonical form exactly if they differ only in the order of keys. */
  lemma {:induction false} CanonicalFormDecides(a: Json, b: Json)
    requires WellFormed(a) && WellFormed(b)
    ensures Equivalent(a, b) <==> Canon(a) == Canon(b)
    decreases a
  {
    match (a, b)
    case (Arr(x), Arr(y)) => CanonicalItemsDecide(x, y);
    case (Obj(x), Obj(y)) =>
      CanonFieldsOk(x);
      CanonFieldsOk(y);
      if Keys(x) == Keys(y) {
        CanonicalFieldsDecide(x, y);
        if EquivalentFields(x, y) {
          SortedUnique(CanonFields(x), CanonFields(y));
        }
      }
    case _ =>
  }

  lemma {:induction false} CanonicalItemsDecide(x: Items, y: Items)
    requires WellFormedItems(x) && WellFormedItems(y)
    ensures EquivalentItems(x, y) <==> CanonItems(x) == CanonItems(y)
    decreases x
  {
    if x.Item? && y.Item? {
      CanonicalFormDecides(x.head, y.head);
      CanonicalItemsDecide(x.tail, y.tail);
    }
  }

  lemma {:induction false} CanonicalFieldsDecide(x: Fields, y: Fields)
    requires WellFormedFields(x) && WellFormedFields(y) && Keys(x) <= Keys(y)
    ensures EquivalentFields(x, y) <==> forall k :: k in Keys(x) ==> Canon(Get(x, k)) == Canon(Get(y, k))
    decreases x
  {
    if x.Field? {
      WellFormedGet(y, x.key);
      CanonicalFormDecides(x.content, Get(y, x.key));
      CanonicalFieldsDecide(x.rest, y);
      assert Get(x, x.key) == x.content;
      assert forall k :: k in Keys(x.rest) ==> Get(x, k) == Get(x.rest, k);
    }
  }

  // ---------------------------------------------------------------- the text

  function EscapedChar(c: char): string { if c == '"' || c == '\\' then ['\\', c] else [c] }

  function Escaped(s: string): string { if s == "" then "" else EscapedChar(s[0]) + Escaped(s[1..]) }

  function Quoted(s: string): string { "\"" + Escaped(s) + "\"" }

  function Dumps(j: Json): string {
    match j
    case Null => "null"
    case Bool(b) => if b then "true" else "false"
    case Number(d) => d
    case Text(s) => Quoted(s)
    case Arr(items) => if items.NoItems? then "[]" else "[" + Dumps(items.head) + MoreItems(items.tail)
    case Obj(f) => if f.NoFields? then "{}" else "{" + Quoted(f.key) + ": " + Dumps(f.content) + MoreFields(f.rest)
  }

  function MoreItems(i: Items): string { if i.NoItems? then "]" else ", " + Dumps(i.head) + MoreItems(i.tail) }

  function MoreFields(f: Fields): string {
    if f.NoFields? then "}" else ", " + Quoted(f.key) + ": " + Dumps(f.content) + MoreFields(f.rest)
  }

  /** Text without quotes and backslashes is only put between quotes. */
  lemma {:induction false} PlainText(s: string)
    requires '"' !in s && '\\' !in s
    ensures Escaped(s) == s && Dumps(Text(s)) == ['"'] + s + ['"']
  {
    if s != "" {
      PlainText(s[1..]);
      assert s == [s[0]] + s[1..];
    }
  }

  /** The separators: one space after a comma and after a colon. */
  lemma FormatByExample(k: string, v: Json, w: Json)
    requires '"' !in k && '\\' !in k
    ensures Dumps(Arr(Item(v, Item(w, NoItems)))) == "[" + Dumps(v) + ", " + Dumps(w) + "]"
    ensures Dumps(Obj(Field(k, v, NoFields))) == "{\"" + k + "\": " + Dumps(v) + "}"
    ensures Dumps(Obj(NoFields)) == "{}" && Dumps(Arr(NoItems)) == "[]"
    ensures Escaped("\"\\") == "\\\"\\\\"
  {
    PlainText(k);
    assert MoreItems(Item(w, NoItems)) == ", " + Dumps(w) + "]";
    assert Escaped("\\") == "\\\\";
  }

  /** What follows a value in a text does not continue a number. */
  predicate Stops(x: string) { x != "" ==> !NumChar(x[0]) }

  lemma Shift(lead: string, h: string, m: string, x: string)
    ensures (lead + h + m) + x == lead + (h + (m + x))
  {}

  lemma ShiftField(q: string, d: string, m: string, x: string)
    ensures (q + ": " + d + m) + x == q + (": " + (d + (m + x)))
  {}

  lemma ShiftLead(lead: string, t: string, q: string, d: string, m: string, x: string)
    requires t == q + ": " + d + m
    ensures (lead + q + ": " + d + m) + x == lead + (t + x)
  {
    assert lead + q + ": " + d + m == lead + t;
  }

  /** A quote character ends the text of a string, and only there is one unescaped. */
  lemma EscapedHead(s: string, x: string)
    ensures (Escaped(s) + "\"" + x)[0] == '"' <==> s == ""
  {}

  lemma EscapedFirst(s: string, t: string, l: string, r: string)
    requires s != "" && t != "" && EscapedChar(s[0]) + l == EscapedChar(t[0]) + r
    ensures s[0] == t[0] && l == r
  {
    var c, d := EscapedChar(s[0]), EscapedChar(t[0]);
    assert (c + l)[0] == c[0] && (d + r)[0] == d[0];
    if |c| == 2 {
      assert (c + l)[1] == c[1] && (d + r)[1] == d[1];
    }
    assert c == d;
    assert l == (c + l)[|c|..] && r == (d + r)[|d|..];
  }

  lemma {:induction false} EscapedPrefix(s: string, t: string, x: string, y: string)
    requires Escaped(s) + "\"" + x == Escaped(t) + "\"" + y
    ensures s == t && x == y
  {
    EscapedHead(s, x);
    EscapedHead(t, y);
    if s == "" {
      assert x == (Escaped(s) + "\"" + x)[1..] && y == (Escaped(t) + "\"" + y)[1..];
    } else {
      var l, r := Escaped(s[1..]) + "\"" + x, Escaped(t[1..]) + "\"" + y;
      assert Escaped(s) + "\"" + x == EscapedChar(s[0]) + l;
      assert Escaped(t) + "\"" + y == EscapedChar(t[0]) + r;
      EscapedFirst(s, t, l, r);
      EscapedPrefix(s[1..], t[1..], x, y);
      assert s == [s[0]] + s[1..] && t == [t[0]] + t[1..];
    }
  }

  lemma QuotedPrefix(s: string, t: string, x: string, y: string)
    requires Quoted(s) + x == Quoted(t) + y
    ensures s == t && x == y
  {
    assert (Quoted(s) + x)[1..] == Escaped(s) + "\"" + x;
    assert (Quoted(t) + y)[1..] == Escaped(t) + "\"" + y;
    EscapedPrefix(s, t, x, y);
  }

  /** Where the number at the head of a text ends. */
  predicate EndsAt(l: string, n: nat) {
    n <= |l| && (forall i: nat :: i < n ==> NumChar(l[i])) && (n < |l| ==> !NumChar(l[n]))
  }

  lemma NumberPrefix(d: string, e: string, x: string, y: string)
    requires WellFormed(Number(d)) && WellFormed(Number(e)) && Stops(x) && Stops(y) && d + x == e + y
    ensures d == e && x == y
  {
    assert EndsAt(d + x, |d|) && EndsAt(e + y, |e|);
    assert |d| == |e|;
    assert d == (d + x)[..|d|] && x == (d + x)[|d|..];
    assert e == (e + y)[..|d|] && y == (e + y)[|d|..];
  }

  lemma DropCommon(p: string, x: string, y: string)
    requires p + x == p + y
    ensures x == y
  {
    assert (p + x)[|p|..] == x && (p + y)[|p|..] == y;
  }

  /** The kind of value is seen from its first character. */
  function Kind(j: Json): nat {
    match j
    case Null => 0
    case Bool(b) => if b then 1 else 2
    case Number(_) => 3
    case Text(_) => 4
    case Arr(_) => 5
    case Obj(_) => 6
  }

  function KindOf(c: char): nat {
    if c == 'n' then 0 else if c == 't' then 1 else if c == 'f' then 2
    else if NumChar(c) then 3 else if c == '"' then 4 else if c == '[' then 5 else 6
  }

  lemma FirstChar(j: Json)
    requires WellFormed(j)
    ensures Dumps(j) != "" && KindOf(Dumps(j)[0]) == Kind(j) && Dumps(j)[0] != ']' && Dumps(j)[0] != '}'
  {}

  /** No value's text is a proper prefix of another's where a number cannot go on, so a text can be
      read back in one way only. */
  lemma {:induction false} DumpsPrefix(a: Json, b: Json, x: string, y: string)
    requires WellFormed(a) && WellFormed(b) && Stops(x) && Stops(y)
    requires Dumps(a) + x == Dumps(b) + y
    ensures a == b && x == y
    decreases a
  {
    FirstChar(a);
    FirstChar(b);
    assert Dumps(a)[0] == (Dumps(a) + x)[0] == Dumps(b)[0];
    assert Kind(a) == Kind(b);
    match a
    case Number(d) => NumberPrefix(d, b.digits, x, y);
    case Text(s) => QuotedPrefix(s, b.text, x, y);
    case Arr(items) => ArrPrefix(items, b.items, x, y);
    case Obj(fields) => ObjPrefix(fields, b.fields, x, y);
    case _ => DropCommon(Dumps(a), x, y);
  }

  lemma {:induction false} ArrPrefix(i: Items, k: Items, x: string, y: string)
    requires WellFormedItems(i) && WellFormedItems(k) && Stops(x) && Stops(y)
    requires Dumps(Arr(i)) + x == Dumps(Arr(k)) + y
    ensures i == k && x == y
    decreases i, 1
  {
    var l, r := Dumps(Arr(i)) + x, Dumps(Arr(k)) + y;
    ArrSecond(i, x);
    ArrSecond(k, y);
    if i.NoItems? {
      assert x == l[2..] && y == r[2..];
    } else {
      ItemsPrefix("[", i, k, x, y);
    }
  }

  lemma {:induction false} ItemsPrefix(lead: string, i: Items, k: Items, x: string, y: string)
    requires i.Item? && k.Item? && WellFormedItems(i) && WellFormedItems(k) && Stops(x) && Stops(y)
    requires (lead + Dumps(i.head) + MoreItems(i.tail)) + x == (lead + Dumps(k.head) + MoreItems(k.tail)) + y
    ensures i == k && x == y
    decreases i, 0
  {
    var h, h', m, m' := Dumps(i.head), Dumps(k.head), MoreItems(i.tail), MoreItems(k.tail);
    Shift(lead, h, m, x);
    Shift(lead, h', m', y);
    DropCommon(lead, h + (m + x), h' + (m' + y));
    DumpsPrefix(i.head, k.head, m + x, m' + y);
    MoreItemsPrefix(i.tail, k.tail, x, y);
  }

  lemma ArrSecond(i: Items, x: string)
    requires WellFormedItems(i)
    ensures |Dumps(Arr(i)) + x| > 1 && ((Dumps(Arr(i)) + x)[1] == ']' <==> i.NoItems?)
  {
    if i.Item? {
      FirstChar(i.head);
      assert (Dumps(Arr(i)) + x)[1] == Dumps(i.head)[0];
    }
  }

  lemma {:induction false} MoreItemsPrefix(i: Items, k: Items, x: string, y: string)
    requires WellFormedItems(i) && WellFormedItems(k) && Stops(x) && Stops(y)
    requires MoreItems(i) + x == MoreItems(k) + y
    ensures i == k && x == y
    decreases i, 2
  {
    var l, r := MoreItems(i) + x, MoreItems(k) + y;
    assert l[0] == (if i.NoItems? then ']' else ',') && r[0] == (if k.NoItems? then ']' else ',');
    if i.NoItems? {
      assert x == l[1..] && y == r[1..];
    } else {
      ItemsPrefix(", ", i, k, x, y);
    }
  }

  lemma {:induction false} ObjPrefix(f: Fields, g: Fields, x: string, y: string)
    requires WellFormedFields(f) && WellFormedFields(g) && Stops(x) && Stops(y)
    requires Dumps(Obj(f)) + x == Dumps(Obj(g)) + y
    ensures f == g && x == y
    decreases f, 1
  {
    var l, r := Dumps(Obj(f)) + x, Dumps(Obj(g)) + y;
    assert l[1] == (if f.NoFields? then '}' else '"') && r[1] == (if g.NoFields? then '}' else '"');
    if f.NoFields? {
      assert x == l[2..] && y == r[2..];
    } else {
      ShiftLead("{", FieldText(f), Quoted(f.key), Dumps(f.content), MoreFields(f.rest), x);
      ShiftLead("{", FieldText(g), Quoted(g.key), Dumps(g.content), MoreFields(g.rest), y);
      DropCommon("{", FieldText(f) + x, FieldText(g) + y);
      FieldPrefix(f, g, x, y);
    }
  }

  function FieldText(f: Fields): string
    requires f.Field?
  {
    Quoted(f.key) + ": " + Dumps(f.content) + MoreFields(f.rest)
  }

  lemma {:induction false} FieldPrefix(f: Fields, g: Fields, x: string, y: string)
    requires f.Field? && g.Field? && WellFormedFields(f) && WellFormedFields(g) && Stops(x) && Stops(y)
    requires FieldText(f) + x == FieldText(g) + y
    ensures f == g && x == y
    decreases f, 0
  {
    var u, v := MoreFields(f.rest) + x, MoreFields(g.rest) + y;
    ShiftField(Quoted(f.key), Dumps(f.content), MoreFields(f.rest), x);
    ShiftField(Quoted(g.key), Dumps(g.content), MoreFields(g.rest), y);
    QuotedPrefix(f.key, g.key, ": " + (Dumps(f.content) + u), ": " + (Dumps(g.content) + v));
    DropCommon(": ", Dumps(f.content) + u, Dumps(g.content) + v);
    DumpsPrefix(f.content, g.content, u, v);
    MoreFieldsPrefix(f.rest, g.rest, x, y);
  }

  lemma {:induction false} MoreFieldsPrefix(f: Fields, g: Fields, x: string, y: string)
    requires WellFormedFields(f) && WellFormedFields(g) && Stops(x) && Stops(y)
    requires MoreFields(f) + x == MoreFields(g) + y
    ensures f == g && x == y
    decreases f, 2
  {
    var l, r := MoreFields(f) + x, MoreFields(g) + y;
    assert l[0] == (if f.NoFields? then '}' else ',') && r[0] == (if g.NoFields? then '}' else ',');
    if f.NoFields? {
      assert x == l[1..] && y == r[1..];
    } else {
      ShiftLead(", ", FieldText(f), Quoted(f.key), Dumps(f.content), MoreFields(f.rest), x);
      ShiftLead(", ", FieldText(g), Quoted(g.key), Dumps(g.content), MoreFields(g.rest), y);
      DropCommon(", ", FieldText(f) + x, FieldText(g) + y);
      FieldPrefix(f, g, x, y);
    }
  }

  // ---------------------------------------------------------------- what is signed

  function SignedText(j: Json): string { Dumps(Canon(j)) }

  lemma {:induction false} CanonWellFormed(j: Json)
    requires WellFormed(j)
    ensures WellFormed(Canon(j))
    decreases j
  {
    match j
    case Arr(items) => CanonItemsWellFormed(items);
    case Obj(fields) => CanonFieldsWellFormed(fields);
    case _ =>
  }

  lemma {:induction false} CanonItemsWellFormed(i: Items)
    requires WellFormedItems(i)
    ensures WellFormedItems(CanonItems(i))
    decreases i
  {
    if i.Item? {
      CanonWellFormed(i.head);
      CanonItemsWellFormed(i.tail);
    }
  }

  lemma {:induction false} CanonFieldsWellFormed(f: Fields)
    requires WellFormedFields(f)
    ensures WellFormedFields(CanonFields(f)) && Keys(CanonFields(f)) == Keys(f)
    decreases f
  {
    if f.Field? {
      CanonWellFormed(f.content);
      CanonFieldsWellFormed(f.rest);
      InsertWellFormed(f.key, Canon(f.content), CanonFields(f.rest));
    }
  }

  lemma {:induction false} InsertWellFormed(k: string, v: Json, f: Fields)
    requires WellFormedFields(f) && WellFormed(v) && k !in Keys(f)
    ensures WellFormedFields(Insert(k, v, f)) && Keys(Insert(k, v, f)) == Keys(f) + {k}
  {
    if f.Field? && Before(f.key, k) {
      InsertWellFormed(k, v, f.rest);
    }
  }

  /** The texts that are signed for two payloads are equal exactly if the payloads differ only in the
      order of keys. */
  lemma SignedTextDecides(a: Json, b: Json)
    requires WellFormed(a) && WellFormed(b)
    ensures SignedText(a) == SignedText(b) <==> Equivalent(a, b)
  {
    CanonicalFormDecides(a, b);
    if SignedText(a) == SignedText(b) {
      CanonWellFormed(a);
      CanonWellFormed(b);
      assert Dumps(Canon(a)) + "" == Dumps(Canon(b)) + "";
      DumpsPrefix(Canon(a), Canon(b), "", "");
    }
  }
}
