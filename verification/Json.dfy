/**
  The canonical JSON text of configuration documents (sections 4 to 7 of RFC 8259), printed
  without spaces and read back. Reading accepts only the forms that are printed: the one reader
  whose answer is used afterwards compares the whole text with its own printing.
 */
module Json {
  import opened Common
  import opened Decimals

  datatype Value =
    | Text(text: string)
    | Number(value: nat)
    | List(items: Items)
    | Object(members: Members)

  datatype Items = NoItems | Item(head: Value, rest: Items)

  datatype Members = NoMembers | Member(key: string, value: Value, rest: Members)

  /** Characters that stand for themselves between quotation marks. */
  predicate Plain(s: string) {
    forall c :: c in s ==> ' ' <= c <= '~' && c != '"' && c != '\\'
  }

  function Keys(m: Members): set<string> {
    match m
    case NoMembers => {}
    case Member(key, _, rest) => {key} + Keys(rest)
  }

  function Lookup(m: Members, key: string): Option<Value> {
    match m
    case NoMembers => None
    case Member(k, v, rest) => if k == key then Some(v) else Lookup(rest, key)
  }

  /** Strings are plain and no object repeats a key. */
  predicate Printable(v: Value) {
    match v
    case Text(t) => Plain(t)
    case Number(_) => true
    case List(items) => PrintableItems(items)
    case Object(members) => PrintableMembers(members)
  }

  predicate PrintableItems(items: Items) {
    match items
    case NoItems => true
    case Item(head, rest) => Printable(head) && PrintableItems(rest)
  }

  predicate PrintableMembers(m: Members) {
    match m
    case NoMembers => true
    case Member(key, value, rest) => Plain(key) && key !in Keys(rest) && Printable(value) && PrintableMembers(rest)
  }

  // ---------- Printing ----------

  function Quote(s: string): string {
    "\"" + s + "\""
  }

  function Print(v: Value): string {
    match v
    case Text(t) => Quote(t)
    case Number(n) => TextOf(n)
    case List(items) => "[" + PrintItems(items) + "]"
    case Object(members) => "{" + PrintMembers(members) + "}"
  }

  function PrintItems(items: Items): string {
    match items
    case NoItems => ""
    case Item(head, rest) => Print(head) + if rest.NoItems? then "" else "," + PrintItems(rest)
  }

  function PrintMembers(m: Members): string {
    match m
    case NoMembers => ""
    case Member(key, value, rest) =>
      Quote(key) + ":" + Print(value) + if rest.NoMembers? then "" else "," + PrintMembers(rest)
  }

  // ---------- Reading ----------

  /** The plain characters up to the closing quotation mark. */
  function ReadText(s: string): (r: Option<(string, string)>)
    ensures r.Some? ==> |r.value.1| < |s|
  {
    if s == "" then None
    else if s[0] == '"' then Some(("", s[1..]))
    else if !Plain([s[0]]) then None
    else
      var r := ReadText(s[1..]);
      if r.None? then None else Some(([s[0]] + r.value.0, r.value.1))
  }

  function ReadDigits(s: string): (r: (string, string))
    ensures |r.0| + |r.1| == |s| && forall c :: c in r.0 ==> Digit(c)
  {
    if s == "" || !Digit(s[0]) then ("", s)
    else
      var r := ReadDigits(s[1..]);
      ([s[0]] + r.0, r.1)
  }

  function ReadValue(s: string): (r: Option<(Value, string)>)
    ensures r.Some? ==> |r.value.1| < |s|
    decreases |s|, 1
  {
    if s == "" then None
    else if s[0] == '"' then
      var t := ReadText(s[1..]);
      if t.None? then None else Some((Text(t.value.0), t.value.1))
    else if s[0] == '[' then
      if |s| > 1 && s[1] == ']' then Some((List(NoItems), s[2..]))
      else
        var items := ReadItems(s[1..]);
        if items.None? then None else Some((List(items.value.0), items.value.1))
    else if s[0] == '{' then
      if |s| > 1 && s[1] == '}' then Some((Object(NoMembers), s[2..]))
      else
        var members := ReadMembers(s[1..]);
        if members.None? then None else Some((Object(members.value.0), members.value.1))
    else
      var (digits, rest) := ReadDigits(s);
      if digits == "0" || Decimal(digits) then Some((Number(NatOf(digits)), rest)) else None
  }

  /** The items up to the closing bracket; there is at least one. */
  function ReadItems(s: string): (r: Option<(Items, string)>)
    ensures r.Some? ==> |r.value.1| < |s|
    decreases |s|, 2
  {
    var head := ReadValue(s);
    if head.None? || head.value.1 == "" then None
    else if head.value.1[0] == ']' then Some((Item(head.value.0, NoItems), head.value.1[1..]))
    else if head.value.1[0] != ',' then None
    else
      var rest := ReadItems(head.value.1[1..]);
      if rest.None? then None else Some((Item(head.value.0, rest.value.0), rest.value.1))
  }

  function ReadMembers(s: string): (r: Option<(Members, string)>)
    ensures r.Some? ==> |r.value.1| < |s|
    decreases |s|, 2
  {
    if s == "" || s[0] != '"' then None
    else
      var key := ReadText(s[1..]);
      if key.None? || key.value.1 == "" || key.value.1[0] != ':' then None
      else
        var value := ReadValue(key.value.1[1..]);
        if value.None? || value.value.1 == "" then None
        else if value.value.1[0] == '}' then Some((Member(key.value.0, value.value.0, NoMembers), value.value.1[1..]))
        else if value.value.1[0] != ',' then None
        else
          var rest := ReadMembers(value.value.1[1..]);
          if rest.None? || key.value.0 in Keys(rest.value.0) then None
          else Some((Member(key.value.0, value.value.0, rest.value.0), rest.value.1))
  }

  function Decode(s: string): Option<Value> {
    var r := ReadValue(s);
    if r.Some? && r.value.1 == "" then Some(r.value.0) else None
  }

  // ---------- What is printed reads back ----------

  lemma {:induction false} TextReads(t: string, rest: string)
    requires Plain(t)
    ensures ReadText(t + "\"" + rest) == Some((t, rest))
  {
    if t == "" {
      assert t + "\"" + rest == "\"" + rest;
    } else {
      assert (t + "\"" + rest)[1..] == t[1..] + "\"" + rest;
      assert forall c :: c in t[1..] ==> c in t;
      assert t[0] in t;
      TextReads(t[1..], rest);
      assert t == [t[0]] + t[1..];
    }
  }

  lemma {:induction false} DigitsRead(digits: string, rest: string)
    requires (forall c :: c in digits ==> Digit(c)) && (rest == "" || !Digit(rest[0]))
    ensures ReadDigits(digits + rest) == (digits, rest)
  {
    if digits == "" {
      assert digits + rest == rest;
    } else {
      assert (digits + rest)[1..] == digits[1..] + rest;
      assert digits[0] in digits && forall c :: c in digits[1..] ==> c in digits;
      DigitsRead(digits[1..], rest);
      assert digits == [digits[0]] + digits[1..];
    }
  }

  lemma NumberReads(n: nat, rest: string)
    requires rest == "" || !Digit(rest[0])
    ensures ReadValue(TextOf(n) + rest) == Some((Number(n), rest))
  {
    TextReadsBack(n);
    DigitsRead(TextOf(n), rest);
    assert (TextOf(n) + rest)[0] == TextOf(n)[0];
    assert n == 0 ==> TextOf(n) == "0";
  }

  lemma TextValueReads(t: string, rest: string)
    requires Plain(t)
    ensures ReadValue(Quote(t) + rest) == Some((Text(t), rest))
  {
    hide ReadText;
    TextReads(t, rest);
    assert (Quote(t) + rest)[1..] == t + "\"" + rest;
  }

  lemma {:induction false} ListReads(items: Items, rest: string)
    requires PrintableItems(items)
    ensures ReadValue("[" + PrintItems(items) + "]" + rest) == Some((List(items), rest))
    decreases items, 1
  {
    hide ReadItems, ReadText, ReadDigits;
    var s := "[" + PrintItems(items) + "]" + rest;
    assert s[1..] == PrintItems(items) + ("]" + rest);
    if items.Item? {
      ItemsRead(items, rest);
      assert s[1] == PrintItems(items)[0];
    } else {
      assert s[2..] == rest;
    }
  }

  lemma {:induction false} ObjectReads(members: Members, rest: string)
    requires PrintableMembers(members)
    ensures ReadValue("{" + PrintMembers(members) + "}" + rest) == Some((Object(members), rest))
    decreases members, 1
  {
    hide ReadMembers, ReadText, ReadDigits;
    var s := "{" + PrintMembers(members) + "}" + rest;
    assert s[1..] == PrintMembers(members) + ("}" + rest);
    if members.Member? {
      MembersRead(members, rest);
      assert s[1] == PrintMembers(members)[0];
    } else {
      assert s[2..] == rest;
    }
  }

  lemma {:induction false} ValueReads(v: Value, rest: string)
    requires Printable(v) && (rest == "" || !Digit(rest[0]))
    ensures ReadValue(Print(v) + rest) == Some((v, rest)) && |Print(v)| > 0
    ensures Print(v)[0] != ']' && Print(v)[0] != '}'
    decreases v
  {
    hide ReadValue, PrintItems, PrintMembers;
    match v
    case Text(t) =>
      TextValueReads(t, rest);
    case Number(n) =>
      NumberReads(n, rest);
      TextReadsBack(n);
      assert TextOf(n)[0] in TextOf(n);
    case List(items) =>
      ListReads(items, rest);
    case Object(members) =>
      ObjectReads(members, rest);
  }

  /** What follows the first item of a printed list. */
  function AfterItem(items: Items, rest: string): (after: string)
    requires items.Item?
    ensures after != "" && after[0] == (if items.rest.NoItems? then ']' else ',')
    ensures after[1..] == if items.rest.NoItems? then rest else PrintItems(items.rest) + ("]" + rest)
  {
    if items.rest.NoItems? then "]" + rest else "," + (PrintItems(items.rest) + ("]" + rest))
  }

  lemma Joined(a: string, b: string, c: string)
    ensures (a + b) + c == a + (b + c) && a + "" == a && "" + a == a
  {
  }

  lemma Behind(c: char, s: string)
    ensures ([c] + s)[0] == c && ([c] + s)[1..] == s
  {
  }

  lemma ItemsText(items: Items, rest: string)
    requires items.Item?
    ensures PrintItems(items) + ("]" + rest) == Print(items.head) + AfterItem(items, rest)
    ensures Print(items.head) != "" ==> PrintItems(items) != "" && PrintItems(items)[0] == Print(items.head)[0]
  {
    hide Print;
    var head, end := Print(items.head), "]" + rest;
    if items.rest.NoItems? {
      Joined(head, "", end);
    } else {
      var others := PrintItems(items.rest);
      hide PrintItems;
      Joined(head, "," + others, end);
      Joined(",", others, end);
    }
  }

  lemma {:induction false} ItemsRead(items: Items, rest: string)
    requires PrintableItems(items) && items.Item?
    ensures ReadItems(PrintItems(items) + ("]" + rest)) == Some((items, rest))
    ensures |PrintItems(items)| > 0 && PrintItems(items)[0] != ']'
    decreases items, 0
  {
    ItemsText(items, rest);
    hide ReadValue, Print, PrintItems, Printable, AfterItem;
    ValueReads(items.head, AfterItem(items, rest));
    if items.rest.Item? {
      ItemsRead(items.rest, rest);
    }
  }

  /** What follows the first member of a printed object. */
  function AfterMember(m: Members, rest: string): (after: string)
    requires m.Member?
    ensures after != "" && after[0] == (if m.rest.NoMembers? then '}' else ',')
    ensures after[1..] == if m.rest.NoMembers? then rest else PrintMembers(m.rest) + ("}" + rest)
  {
    if m.rest.NoMembers? then "}" + rest else "," + (PrintMembers(m.rest) + ("}" + rest))
  }

  lemma MembersText(m: Members, rest: string)
    requires m.Member?
    ensures PrintMembers(m) + ("}" + rest) == Quote(m.key) + (":" + (Print(m.value) + AfterMember(m, rest)))
  {
    hide Print, Quote;
    var key, value, end := Quote(m.key), Print(m.value), "}" + rest;
    var others := if m.rest.NoMembers? then "" else "," + PrintMembers(m.rest);
    assert PrintMembers(m) == key + ":" + value + others;
    MemberJoined(key, value, others, end);
    if m.rest.NoMembers? {
      Joined(end, "", "");
    } else {
      Joined(",", PrintMembers(m.rest), end);
    }
  }

  lemma MemberJoined(key: string, value: string, others: string, end: string)
    ensures (((key + ":") + value) + others) + end == key + (":" + (value + (others + end)))
  {
    Joined((key + ":") + value, others, end);
    Joined(key + ":", value, others + end);
    Joined(key, ":", value + (others + end));
  }

  lemma Quoted(t: string, rest: string)
    ensures Quote(t) + rest == "\"" + (t + "\"" + rest)
  {
    Joined("\"" + t, "\"", rest);
    Joined("\"", t, "\"" + rest);
    Joined(t, "\"", rest);
  }

  lemma PrintedStart(m: Members)
    requires m.Member?
    ensures PrintMembers(m) != "" && PrintMembers(m)[0] == '"'
  {
    hide Print;
  }

  lemma {:induction false} MembersRead(m: Members, rest: string)
    requires PrintableMembers(m) && m.Member?
    ensures ReadMembers(PrintMembers(m) + ("}" + rest)) == Some((m, rest))
    ensures |PrintMembers(m)| > 0 && PrintMembers(m)[0] != '}'
    decreases m, 0
  {
    var value := Print(m.value) + AfterMember(m, rest);
    MembersText(m, rest);
    Quoted(m.key, ":" + value);
    PrintedStart(m);
    TextReads(m.key, ":" + value);
    Behind('"', m.key + "\"" + (":" + value));
    Behind(':', value);
    hide ReadValue, ReadText, Print, PrintMembers, Printable, Plain, Quote, AfterMember;
    ValueReads(m.value, AfterMember(m, rest));
    if m.rest.Member? {
      MembersRead(m.rest, rest);
    }
  }

  /** Decoding undoes printing. */
  lemma DecodePrinted(v: Value)
    requires Printable(v)
    ensures Decode(Print(v)) == Some(v)
  {
    ValueReads(v, "");
    assert Print(v) + "" == Print(v);
  }

  /** A printed value holds no line break. */
  lemma {:induction false} PrintedOnOneLine(v: Value)
    requires Printable(v)
    ensures '\n' !in Print(v)
    decreases v
  {
    match v
    case Text(t) =>
    case Number(n) => TextReadsBack(n);
    case List(items) => ItemsOnOneLine(items);
    case Object(members) => MembersOnOneLine(members);
  }

  lemma {:induction false} ItemsOnOneLine(items: Items)
    requires PrintableItems(items)
    ensures '\n' !in PrintItems(items)
    decreases items
  {
    if items.Item? {
      PrintedOnOneLine(items.head);
      ItemsOnOneLine(items.rest);
    }
  }

  lemma {:induction false} MembersOnOneLine(m: Members)
    requires PrintableMembers(m)
    ensures '\n' !in PrintMembers(m)
    decreases m
  {
    if m.Member? {
      PrintedOnOneLine(m.value);
      MembersOnOneLine(m.rest);
    }
  }
}
