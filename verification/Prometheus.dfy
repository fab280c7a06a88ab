/** The metrics printer of httpapi/prometheus.go and a scraper that reads its output back.
    The scraper follows the text exposition format 0.0.4 and is the printer's inverse. */
module Prometheus {

  import opened Common
  import StringOrder
  import Numbers

  // ------------------------------------------------------------------
  // escapeLabel
  // ------------------------------------------------------------------

  predicate Special(c: char) { c == '\\' || c == '"' || c == '\n' }

  predicate Unescaped(s: string) { forall i :: 0 <= i < |s| ==> !Special(s[i]) }

  function EscapeChar(c: char): string {
    match c
    case '\\' => "\\\\"
    case '"' => "\\\""
    case '\n' => "\\n"
    case _ => [c]
  }

  function Escape(s: string): string {
    if s == "" then "" else EscapeChar(s[0]) + Escape(s[1..])
  }

  lemma {:induction false} UnescapedIsKept(s: string)
    requires Unescaped(s)
    ensures Escape(s) == s
  {
    if s == "" {
    } else {
      UnescapedIsKept(s[1..]);
      assert s == [s[0]] + s[1..];
    }
  }

  lemma EscapeNext(r: string, s: string, i: nat)
    requires i < |s|
    ensures r + Escape(s[i..]) == (r + EscapeChar(s[i])) + Escape(s[i + 1..])
  {
    assert s[i..][1..] == s[i + 1..];
  }

  /** The scan for special characters, then the rune loop. */
  method EscapeLabel(s: string) returns (r: string)
    ensures r == Escape(s)
  {
    if forall i :: 0 <= i < |s| ==> !Special(s[i]) {
      UnescapedIsKept(s);
      return s;
    }
    r := "";
    for i := 0 to |s|
      invariant r + Escape(s[i..]) == Escape(s)
    {
      EscapeNext(r, s, i);
      match s[i]
      case '\\' => r := r + "\\\\";
      case '"' => r := r + "\\\"";
      case '\n' => r := r + "\\n";
      case _ => r := r + [s[i]];
    }
    assert s[|s|..] == "";
    assert r == r + Escape("");
  }

  // ------------------------------------------------------------------
  // Reading a quoted value
  // ------------------------------------------------------------------

  datatype Reading = Reading(value: string, rest: string)

  function UnescapeChar(c: char): char { if c == 'n' then '\n' else c }

  function Prepend(c: char, r: Option<Reading>): Option<Reading> {
    if r.None? then None else Some(Reading([c] + r.value.value, r.value.rest))
  }

  /** Reads up to the closing quote, undoing escapes; a raw newline or a missing quote is an error. */
  function ReadQuoted(s: string): (r: Option<Reading>)
    ensures r.Some? ==> |r.value.rest| < |s|
  {
    if s == "" || s[0] == '\n' then None
    else if s[0] == '"' then Some(Reading("", s[1..]))
    else if s[0] != '\\' then Prepend(s[0], ReadQuoted(s[1..]))
    else if |s| == 1 then None
    else Prepend(UnescapeChar(s[1]), ReadQuoted(s[2..]))
  }

  lemma EscapedCharRoundTrip(c: char, more: string)
    ensures ReadQuoted(EscapeChar(c) + more) == Prepend(c, ReadQuoted(more))
  {
    var e := EscapeChar(c);
    if Special(c) {
      assert (e + more)[2..] == more;
    } else {
      assert (e + more)[1..] == more;
    }
  }

  lemma ClosingQuote(rest: string)
    ensures ReadQuoted("\"" + rest) == Some(Reading("", rest))
  {
    assert ("\"" + rest)[1..] == rest;
  }

  lemma Associative(a: string, b: string, c: string)
    ensures (a + b) + c == a + (b + c)
  {
  }

  /** The left inverse of escaping, inside any surrounding text. */
  lemma {:induction false} QuotedRoundTrip(v: string, rest: string)
    ensures ReadQuoted(Escape(v) + ("\"" + rest)) == Some(Reading(v, rest))
  {
    if v == "" {
      ClosingQuote(rest);
      assert "" + ("\"" + rest) == "\"" + rest;
    } else {
      QuotedRoundTrip(v[1..], rest);
      EscapedCharRoundTrip(v[0], Escape(v[1..]) + ("\"" + rest));
      Associative(EscapeChar(v[0]), Escape(v[1..]), "\"" + rest);
      assert v == [v[0]] + v[1..];
    }
  }

  lemma EscapeOne(c: char)
    ensures Escape([c]) == EscapeChar(c)
  {
    assert [c][1..] == "";
    assert EscapeChar(c) + "" == EscapeChar(c);
  }

  lemma {:induction false} EscapeConcat(a: string, b: string)
    ensures Escape(a + b) == Escape(a) + Escape(b)
  {
    if a == "" {
      assert a + b == b;
      assert "" + Escape(b) == Escape(b);
    } else {
      assert (a + b)[1..] == a[1..] + b;
      EscapeConcat(a[1..], b);
      Associative(EscapeChar(a[0]), Escape(a[1..]), Escape(b));
    }
  }

  /** Backslash, double quote and newline are escaped, each by a backslash; nothing else is. */
  lemma EscapeTable(a: string, c: char, b: string)
    ensures Escape(a + [c] + b)
            == Escape(a)
               + (if c == '\\' then "\\\\" else if c == '"' then "\\\"" else if c == '\n' then "\\n" else [c])
               + Escape(b)
  {
    EscapeConcat(a + [c], b);
    EscapeConcat(a, [c]);
    EscapeOne(c);
  }

  lemma EscapeIsInjective(a: string, b: string)
    requires Escape(a) == Escape(b)
    ensures a == b
  {
    QuotedRoundTrip(a, "");
    QuotedRoundTrip(b, "");
  }

  lemma {:induction false} EscapeHasNoNewline(v: string)
    ensures '\n' !in Escape(v)
  {
    if v == "" {
    } else {
      EscapeHasNoNewline(v[1..]);
    }
  }

  // ------------------------------------------------------------------
  // Key order
  // ------------------------------------------------------------------

  predicate Ascending(keys: seq<string>) {
    forall i, j :: 0 <= i < j < |keys| ==> StringOrder.Less(keys[i], keys[j])
  }

  predicate SameKeys(keys: seq<string>, labels: map<string, string>) {
    (forall k :: k in keys ==> k in labels) && (forall k :: k in labels ==> k in keys)
  }

  /** The keys of a label map as sort.Strings leaves them. */
  predicate KeysInOrder(keys: seq<string>, labels: map<string, string>) {
    Ascending(keys) && SameKeys(keys, labels)
  }

  lemma HasMember(a: seq<string>)
    ensures a == [] || a[0] in a
  {
  }

  lemma SameHead(a: seq<string>, b: seq<string>)
    requires Ascending(a) && Ascending(b) && a != [] && b != []
    requires a[0] in b && b[0] in a
    ensures a[0] == b[0]
  {
    if a[0] != b[0] {
      var i :| 0 <= i < |b| && b[i] == a[0];
      var j :| 0 <= j < |a| && a[j] == b[0];
      StringOrder.Transitive(a[0], b[0], a[0]);
      StringOrder.Irreflexive(a[0]);
      assert false;
    }
  }

  lemma InTail(a: seq<string>, k: string)
    requires Ascending(a) && a != []
    ensures k in a[1..] <==> k in a && k != a[0]
  {
    StringOrder.Irreflexive(a[0]);
    assert a == [a[0]] + a[1..];
  }

  /** There is only one such order, so the map's iteration order cannot show. */
  lemma {:induction false} OrderIsUnique(a: seq<string>, b: seq<string>)
    requires Ascending(a) && Ascending(b)
    requires forall k :: k in a <==> k in b
    ensures a == b
    decreases |a|
  {
    HasMember(a);
    HasMember(b);
    if a != [] && b != [] {
      SameHead(a, b);
      forall k ensures k in a[1..] <==> k in b[1..] {
        InTail(a, k);
        InTail(b, k);
      }
      OrderIsUnique(a[1..], b[1..]);
      assert a == [a[0]] + a[1..] && b == [b[0]] + b[1..];
    }
  }

  function Insert(k: string, keys: seq<string>): seq<string> {
    if keys == [] || StringOrder.Less(k, keys[0]) then [k] + keys else [keys[0]] + Insert(k, keys[1..])
  }

  /** sort.Strings, known here only through SortOrders. */
  function Sort(keys: seq<string>): seq<string> {
    if keys == [] then [] else Insert(keys[0], Sort(keys[1..]))
  }

  lemma {:induction false} InsertKeeps(k: string, keys: seq<string>)
    ensures multiset(Insert(k, keys)) == multiset(keys) + multiset{k}
  {
    if keys != [] && !StringOrder.Less(k, keys[0]) {
      InsertKeeps(k, keys[1..]);
      assert keys == [keys[0]] + keys[1..];
    }
  }

  lemma {:induction false} InsertAscends(k: string, keys: seq<string>)
    requires Ascending(keys) && k !in keys
    ensures Ascending(Insert(k, keys))
  {
    if keys == [] {
    } else if StringOrder.Less(k, keys[0]) {
      forall i | 0 < i < |keys| ensures StringOrder.Less(k, keys[i]) {
        StringOrder.Transitive(k, keys[0], keys[i]);
      }
    } else {
      StringOrder.Total(k, keys[0]);
      InsertAscends(k, keys[1..]);
      InsertKeeps(k, keys[1..]);
      var rest := Insert(k, keys[1..]);
      forall i | 0 <= i < |rest| ensures StringOrder.Less(keys[0], rest[i]) {
        assert rest[i] in multiset(rest);
        assert rest[i] == k || rest[i] in keys[1..];
      }
    }
  }

  predicate Distinct(keys: seq<string>) {
    forall i, j :: 0 <= i < j < |keys| ==> keys[i] != keys[j]
  }

  lemma DistinctTail(keys: seq<string>)
    requires Distinct(keys) && keys != []
    ensures Distinct(keys[1..]) && keys[0] !in multiset(keys[1..])
    ensures multiset(keys) == multiset(keys[1..]) + multiset{keys[0]}
  {
    assert keys == [keys[0]] + keys[1..];
  }

  lemma {:induction false} SortOrders(keys: seq<string>)
    requires Distinct(keys)
    ensures Ascending(Sort(keys)) && multiset(Sort(keys)) == multiset(keys)
  {
    if keys == [] {
    } else {
      var rest := Sort(keys[1..]);
      DistinctTail(keys);
      SortOrders(keys[1..]);
      InsertKeeps(keys[0], rest);
      assert keys[0] !in multiset(rest);
      InsertAscends(keys[0], rest);
    }
  }

  // ------------------------------------------------------------------
  // Lines
  // ------------------------------------------------------------------

  function Pair(k: string, v: string): string { k + ("=\"" + (Escape(v) + "\"")) }

  /** k="v" for each key, with commas between; `comma` says one is due first. */
  function Pairs(keys: seq<string>, labels: map<string, string>, comma: bool): string
    requires forall k :: k in keys ==> k in labels
  {
    if keys == [] then ""
    else (if comma then "," else "") + Pair(keys[0], labels[keys[0]]) + Pairs(keys[1..], labels, true)
  }

  /** What a scrape sees of one metric line; the value counts millionths. */
  datatype Sample = Sample(name: string, labels: map<string, string>, value: int)

  function Braced(keys: seq<string>, labels: map<string, string>): string
    requires forall k :: k in keys ==> k in labels
  {
    if keys == [] then "" else "{" + (Pairs(keys, labels, false) + "}")
  }

  function LineText(keys: seq<string>, s: Sample): string
    requires KeysInOrder(keys, s.labels)
  {
    s.name + (Braced(keys, s.labels) + (" " + Numbers.FormatFloat(s.value)))
  }

  // ------------------------------------------------------------------
  // metricWriter
  // ------------------------------------------------------------------

  datatype Item =
    | Help(name: string, desc: string)
    | Type(name: string, kind: string)
    | Metric(sample: Sample, keys: seq<string>)

  predicate WellFormed(item: Item) {
    item.Metric? ==> KeysInOrder(item.keys, item.sample.labels)
  }

  const HELP: string := "# HELP "
  const TYPE: string := "# TYPE "

  function ItemText(item: Item): string
    requires WellFormed(item)
  {
    match item
    case Help(name, desc) => HELP + (name + (" " + desc))
    case Type(name, kind) => TYPE + (name + (" " + kind))
    case Metric(sample, keys) => LineText(keys, sample)
  }

  function Text(items: seq<Item>): string
    requires forall item :: item in items ==> WellFormed(item)
  {
    if items == [] then "" else ItemText(items[0]) + ("\n" + Text(items[1..]))
  }

  lemma Nested(a: string, b: string, c: string, d: string)
    ensures a + (b + (c + d)) == (a + (b + c)) + d
  {
  }

  lemma {:induction false} TextOfMore(items: seq<Item>, item: Item)
    requires forall i :: i in items ==> WellFormed(i)
    requires WellFormed(item)
    ensures Text(items + [item]) == Text(items) + (ItemText(item) + "\n")
  {
    if items == [] {
      assert items + [item] == [item];
      assert [item][1..] == [];
    } else {
      assert (items + [item])[1..] == items[1..] + [item];
      TextOfMore(items[1..], item);
      Nested(ItemText(items[0]), "\n", Text(items[1..]), ItemText(item) + "\n");
    }
  }

  function Helped(items: seq<Item>): set<string> {
    if items == [] then {}
    else
      var last := items[|items| - 1];
      Helped(items[..|items| - 1]) + if last.Help? then {last.name} else {}
  }

  function Typed(items: seq<Item>): set<string> {
    if items == [] then {}
    else
      var last := items[|items| - 1];
      Typed(items[..|items| - 1]) + if last.Type? then {last.name} else {}
  }

  /** No header repeats one that came before it. */
  predicate HeadersAreNew(items: seq<Item>) {
    items == [] ||
    var before, last := items[..|items| - 1], items[|items| - 1];
    HeadersAreNew(before) && !(last.Help? && last.name in Helped(before)) && !(last.Type? && last.name in Typed(before))
  }

  lemma {:induction false} HelpedHolds(items: seq<Item>, i: nat)
    requires i < |items|
    ensures items[i].Help? ==> items[i].name in Helped(items)
    ensures items[i].Type? ==> items[i].name in Typed(items)
  {
    if i < |items| - 1 {
      HelpedHolds(items[..|items| - 1], i);
    }
  }

  /** HELP and TYPE appear at most once for each metric name. */
  lemma {:induction false} HeadersOnce(items: seq<Item>, i: nat, j: nat)
    requires HeadersAreNew(items) && i < j < |items| && !items[i].Metric? && !items[j].Metric?
    requires items[i].name == items[j].name
    ensures items[i].Help? != items[j].Help?
  {
    var before := items[..|items| - 1];
    if j < |items| - 1 {
      HeadersOnce(before, i, j);
    } else {
      HelpedHolds(before, i);
    }
  }

  lemma Regroup(a: string, b: string, c: string, d: string, e: string, f: string)
    ensures a + b + c + d + e + f == a + (b + (c + (d + (e + f))))
  {
  }

  lemma PairsStep(before: string, keys: seq<string>, i: nat, labels: map<string, string>, more: seq<string>)
    requires i < |keys| && more == keys[i..]
    requires forall k :: k in keys ==> k in labels
    ensures forall k :: k in more ==> k in labels
    ensures forall k :: k in keys[i + 1..] ==> k in labels
    ensures keys[i] in labels
    ensures before + Pairs(more, labels, i > 0)
            == before + ((if i > 0 then "," else "") + Pair(keys[i], labels[keys[i]]))
               + Pairs(keys[i + 1..], labels, true)
  {
    assert more[1..] == keys[i + 1..];
  }

  lemma PairText(before: string, comma: string, k: string, v: string)
    ensures before + comma + k + "=\"" + Escape(v) + "\"" == before + (comma + Pair(k, v))
  {
    Regroup(before, comma, k, "=\"", Escape(v), "\"");
  }

  /** Sorts the collected keys and writes the pairs into the builder one by one. */
  method WritePairs(start: string, keys: seq<string>, labels: map<string, string>) returns (sb: string)
    requires forall k :: k in keys ==> k in labels
    ensures sb == start + Pairs(keys, labels, false)
  {
    sb := start;
    assert keys[0..] == keys;
    for i := 0 to |keys|
      invariant sb + Pairs(keys[i..], labels, i > 0) == start + Pairs(keys, labels, false)
    {
      PairsStep(sb, keys, i, labels, keys[i..]);
      ghost var before, comma := sb, if i > 0 then "," else "";
      if i > 0 {
        sb := sb + ",";
      }
      assert sb == before + comma;
      var escaped := EscapeLabel(labels[keys[i]]);
      PairText(before, comma, keys[i], labels[keys[i]]);
      sb := sb + keys[i] + "=\"" + escaped + "\"";
    }
    assert keys[|keys|..] == [];
    assert sb + "" == sb;
  }

  lemma BareLine(name: string, space: string, number: string)
    ensures name + space + number == name + ("" + (space + number))
  {
    assert "" + (space + number) == space + number;
  }

  lemma BracedLine(pairs: string, number: string)
    ensures "{" + (pairs + ("}" + (" " + number))) == ("{" + (pairs + "}")) + (" " + number)
  {
  }

  /** sort.Strings over the collected keys. */
  method SortedKeys(collected: seq<string>, labels: map<string, string>) returns (keys: seq<string>)
    requires Distinct(collected) && SameKeys(collected, labels)
    ensures KeysInOrder(keys, labels)
  {
    SortOrders(collected);
    keys := Sort(collected);
    forall k ensures k in keys <==> k in collected {
      assert k in keys <==> k in multiset(keys);
      assert k in collected <==> k in multiset(collected);
    }
  }

  method CollectKeys(labels: map<string, string>) returns (keys: seq<string>)
    ensures Distinct(keys) && SameKeys(keys, labels)
  {
    keys := [];
    var todo := labels.Keys;
    while todo != {}
      invariant todo <= labels.Keys && Distinct(keys)
      invariant forall k :: k in keys ==> k in labels && k !in todo
      invariant forall k :: k in labels ==> k in todo || k in keys
      decreases todo
    {
      var k :| k in todo;
      keys := keys + [k];
      todo := todo - {k};
    }
  }

  method RenderLine(name: string, labels: map<string, string>, value: int)
    returns (line: string, keys: seq<string>)
    ensures KeysInOrder(keys, labels)
    ensures line == LineText(keys, Sample(name, labels, value))
  {
    var number := Numbers.FormatFloat(value);
    keys := [];
    if |labels| == 0 {
      line := name + " " + number;
      BareLine(name, " ", number);
      return;
    }
    var collected := CollectKeys(labels);
    keys := SortedKeys(collected, labels);
    var sb := WritePairs(name + "{", keys, labels);
    sb := sb + "}";
    line := sb + " " + number;
    assert keys != [];
    Regroup(name, "{", Pairs(keys, labels, false), "}", " ", number);
    BracedLine(Pairs(keys, labels, false), number);
  }

  /** One header line of the exposition format. */
  function HeaderLine(prefix: string, name: string, text: string): string {
    (prefix + (name + (" " + text))) + "\n"
  }

  /** Every key="escaped value", separated by commas. */
  function Joined(keys: seq<string>, labels: map<string, string>): string
    requires keys != [] && forall k :: k in keys ==> k in labels
  {
    var first := keys[0] + ("=\"" + (Escape(labels[keys[0]]) + "\""));
    if |keys| == 1 then first else first + ("," + Joined(keys[1..], labels))
  }

  lemma PairsAfterComma(keys: seq<string>, labels: map<string, string>)
    requires keys != [] && forall k :: k in keys ==> k in labels
    ensures Pairs(keys, labels, true) == "," + Pairs(keys, labels, false)
  {
    var pair, pairs := Pair(keys[0], labels[keys[0]]), Pairs(keys[1..], labels, true);
    assert "" + pair == pair;
    Associative(",", pair, pairs);
  }

  lemma {:induction false} PairsAreJoined(keys: seq<string>, labels: map<string, string>)
    requires keys != [] && forall k :: k in keys ==> k in labels
    ensures Pairs(keys, labels, false) == Joined(keys, labels)
  {
    var pair, rest := Pair(keys[0], labels[keys[0]]), keys[1..];
    assert "" + pair == pair;
    if |keys| == 1 {
      assert pair + "" == pair;
    } else {
      PairsAreJoined(rest, labels);
      PairsAfterComma(rest, labels);
    }
  }

  /** A sample without labels, with one label, and with more. */
  lemma LineShape(keys: seq<string>, s: Sample)
    requires KeysInOrder(keys, s.labels)
    ensures keys == [] ==> LineText(keys, s) == s.name + (" " + Numbers.FormatFloat(s.value))
    ensures keys != [] ==>
              LineText(keys, s)
              == s.name + (("{" + (Joined(keys, s.labels) + "}")) + (" " + Numbers.FormatFloat(s.value)))
  {
    if keys == [] {
      assert "" + (" " + Numbers.FormatFloat(s.value)) == " " + Numbers.FormatFloat(s.value);
    } else {
      PairsAreJoined(keys, s.labels);
    }
  }

  class MetricWriter {
    var helped: set<string>
    var typed: set<string>
    var out: string
    ghost var items: seq<Item>

    ghost predicate Valid()
      reads this
    {
      && (forall item :: item in items ==> WellFormed(item))
      && out == Text(items)
      && helped == Helped(items)
      && typed == Typed(items)
      && HeadersAreNew(items)
    }

    constructor ()
      ensures Valid() && items == []
    {
      helped, typed, out, items := {}, {}, "", [];
    }

    method WriteHelp(name: string, desc: string)
      requires Valid()
      modifies this
      ensures Valid() && typed == old(typed) && helped == old(helped) + {name}
      ensures items == old(items) + if name in old(helped) then [] else [Help(name, desc)]
      ensures out == old(out) + if name in old(helped) then "" else HeaderLine("# HELP ", name, desc)
    {
      if name in helped {
        return;
      }
      helped := helped + {name};
      Emit(Help(name, desc));
    }

    method WriteType(name: string, kind: string)
      requires Valid()
      modifies this
      ensures Valid() && helped == old(helped) && typed == old(typed) + {name}
      ensures items == old(items) + if name in old(typed) then [] else [Type(name, kind)]
      ensures out == old(out) + if name in old(typed) then "" else HeaderLine("# TYPE ", name, kind)
    {
      if name in typed {
        return;
      }
      typed := typed + {name};
      Emit(Type(name, kind));
    }

    method WriteLine(name: string, labels: map<string, string>, value: int) returns (ghost keys: seq<string>)
      requires Valid()
      modifies this
      ensures Valid() && helped == old(helped) && typed == old(typed)
      ensures KeysInOrder(keys, labels)
      ensures items == old(items) + [Metric(Sample(name, labels, value), keys)]
    {
      var line, sorted := RenderLine(name, labels, value);
      keys := sorted;
      Emit(Metric(Sample(name, labels, value), sorted));
    }

    /** fmt.Fprintf of one line. */
    method Emit(item: Item)
      requires WellFormed(item)
      requires forall i :: i in items ==> WellFormed(i)
      requires out == Text(items)
      modifies this`out, this`items
      ensures items == old(items) + [item]
      ensures (forall i :: i in items ==> WellFormed(i)) && out == Text(items)
      ensures items[..|items| - 1] == old(items)
      ensures out == old(out) + (ItemText(item) + "\n")
    {
      TextOfMore(items, item);
      items := items + [item];
      out := out + (ItemText(item) + "\n");
    }
  }

  // ------------------------------------------------------------------
  // The scraper
  // ------------------------------------------------------------------

  predicate NameChar(c: char) {
    'a' <= c <= 'z' || 'A' <= c <= 'Z' || '0' <= c <= '9' || c == '_' || c == ':'
  }

  predicate Plain(s: string) { forall i :: 0 <= i < |s| ==> NameChar(s[i]) }

  function ReadName(s: string): (name: string)
    ensures |name| <= |s|
  {
    if s == "" || !NameChar(s[0]) then "" else [s[0]] + ReadName(s[1..])
  }

  lemma {:induction false} NameRoundTrip(name: string, rest: string)
    requires Plain(name) && rest != "" && !NameChar(rest[0])
    ensures ReadName(name + rest) == name && (name + rest)[|name|..] == rest
  {
    if name == "" {
      assert name + rest == rest;
    } else {
      assert (name + rest)[1..] == name[1..] + rest;
      NameRoundTrip(name[1..], rest);
    }
  }

  datatype Labels = Labels(labels: map<string, string>, rest: string)

  /** name="value" pairs separated by commas up to the closing brace; a repeated name is an error. */
  function ReadLabels(s: string): Option<Labels>
    decreases |s|
  {
    var k := ReadName(s);
    if |s| < |k| + 2 || s[|k|..|k| + 2] != "=\"" then None
    else
      var quoted := ReadQuoted(s[|k| + 2..]);
      if quoted.None? then None else AfterPair(k, quoted.value.value, quoted.value.rest)
  }

  function AfterPair(k: string, v: string, rest: string): Option<Labels>
    decreases |rest|
  {
    if rest == "" then None
    else if rest[0] == '}' then Some(Labels(map[k := v], rest[1..]))
    else if rest[0] != ',' then None
    else
      var more := ReadLabels(rest[1..]);
      if more.None? || k in more.value.labels then None
      else Some(Labels(more.value.labels[k := v], more.value.rest))
  }

  function ReadValue(s: string): Option<int> {
    if s == "" || s[0] != ' ' then None else Some(Numbers.ParseFloat(s[1..]))
  }

  function ParseRest(name: string, rest: string): Option<Sample> {
    var braced := if rest != "" && rest[0] == '{' then ReadLabels(rest[1..]) else Some(Labels(map[], rest));
    if braced.None? then None
    else
      var value := ReadValue(braced.value.rest);
      if value.None? then None else Some(Sample(name, braced.value.labels, value.value))
  }

  function ParseLine(line: string): Option<Sample> {
    var name := ReadName(line);
    ParseRest(name, line[|name|..])
  }

  predicate PlainNames(s: Sample) {
    Plain(s.name) && forall k :: k in s.labels ==> Plain(k)
  }

  ghost function Restrict(labels: map<string, string>, keys: seq<string>): map<string, string>
    requires forall k :: k in keys ==> k in labels
  {
    map k | k in keys :: labels[k]
  }

  lemma AfterComma(k: string, v: string, after: string, more: Labels)
    requires after != "" && after[0] == ',' && ReadLabels(after[1..]) == Some(more) && k !in more.labels
    ensures AfterPair(k, v, after) == Some(Labels(more.labels[k := v], more.rest))
  {
  }

  lemma FirstPair(keys: seq<string>, labels: map<string, string>, end: string, after: string)
    requires keys != [] && forall k :: k in keys ==> k in labels
    requires after == Pairs(keys[1..], labels, true) + end
    ensures Pairs(keys, labels, false) + end == Pair(keys[0], labels[keys[0]]) + after
  {
    var pair, pairs := Pair(keys[0], labels[keys[0]]), Pairs(keys[1..], labels, true);
    assert "" + pair == pair;
    Associative(pair, pairs, end);
  }

  lemma CommaThen(pair: string, pairs: string, end: string)
    ensures "," + pair + pairs + end == "," + (pair + pairs + end)
    ensures ("," + (pair + pairs + end))[1..] == pair + pairs + end
  {
  }

  lemma CommaPairs(keys: seq<string>, labels: map<string, string>, end: string, after: string)
    requires keys != [] && forall k :: k in keys ==> k in labels
    requires after == Pairs(keys, labels, true) + end
    ensures after != "" && after[0] == ',' && after[1..] == Pairs(keys, labels, false) + end
  {
    var pair, pairs := Pair(keys[0], labels[keys[0]]), Pairs(keys[1..], labels, true);
    assert "" + pair == pair;
    CommaThen(pair, pairs, end);
  }

  lemma RestrictStep(labels: map<string, string>, keys: seq<string>)
    requires keys != [] && forall k :: k in keys ==> k in labels
    ensures Restrict(labels, keys) == Restrict(labels, keys[1..])[keys[0] := labels[keys[0]]]
  {
    assert keys == [keys[0]] + keys[1..];
  }

  lemma PairParts(k: string, v: string, after: string, tail: string)
    requires tail == Escape(v) + ("\"" + after)
    ensures Pair(k, v) + after == k + ("=\"" + tail)
    ensures var s := k + ("=\"" + tail); s[|k|..|k| + 2] == "=\"" && s[|k| + 2..] == tail
  {
    Regroup("", k, "=\"", Escape(v), "\"", after);
  }

  lemma PairRoundTrip(k: string, v: string, after: string)
    requires Plain(k)
    ensures ReadLabels(Pair(k, v) + after) == AfterPair(k, v, after)
  {
    var tail := Escape(v) + ("\"" + after);
    PairParts(k, v, after, tail);
    NameRoundTrip(k, "=\"" + tail);
    QuotedRoundTrip(v, after);
  }

  lemma {:induction false} PairsRoundTrip(keys: seq<string>, labels: map<string, string>, end: string)
    requires keys != [] && Ascending(keys) && end != "" && end[0] == '}'
    requires forall k :: k in keys ==> k in labels && Plain(k)
    ensures ReadLabels(Pairs(keys, labels, false) + end) == Some(Labels(Restrict(labels, keys), end[1..]))
  {
    var after := Pairs(keys[1..], labels, true) + end;
    FirstPair(keys, labels, end, after);
    PairRoundTrip(keys[0], labels[keys[0]], after);
    if |keys| == 1 {
      assert after == end;
      assert Restrict(labels, keys) == map[keys[0] := labels[keys[0]]];
    } else {
      PairsRoundTrip(keys[1..], labels, end);
      CommaPairs(keys[1..], labels, end, after);
      InTail(keys, keys[0]);
      AfterComma(keys[0], labels[keys[0]], after, Labels(Restrict(labels, keys[1..]), end[1..]));
      RestrictStep(labels, keys);
    }
  }

  lemma RestrictToAll(keys: seq<string>, labels: map<string, string>)
    requires SameKeys(keys, labels)
    ensures Restrict(labels, keys) == labels
  {
  }

  lemma InBraces(pairs: string, value: string)
    ensures var rest := ("{" + (pairs + "}")) + value;
      rest != "" && rest[0] == '{' && rest[1..] == pairs + ("}" + value)
  {
  }

  lemma BracedRest(s: Sample, pairs: string, value: string)
    requires ReadLabels(pairs + ("}" + value)) == Some(Labels(s.labels, value))
    requires ReadValue(value) == Some(s.value)
    ensures ParseRest(s.name, ("{" + (pairs + "}")) + value) == Some(s)
  {
    InBraces(pairs, value);
  }

  lemma BracedRoundTrip(keys: seq<string>, s: Sample, value: string)
    requires KeysInOrder(keys, s.labels) && PlainNames(s)
    requires ReadValue(value) == Some(s.value)
    ensures ParseRest(s.name, Braced(keys, s.labels) + value) == Some(s)
  {
    if keys == [] {
      assert "" + value == value;
      assert s.labels == map[];
    } else {
      PairsRoundTrip(keys, s.labels, "}" + value);
      RestrictToAll(keys, s.labels);
      assert ("}" + value)[1..] == value;
      BracedRest(s, Pairs(keys, s.labels, false), value);
    }
  }

  /** One printed line, read back, is the exact name, labels and six-decimal value. */
  lemma LineRoundTrip(keys: seq<string>, s: Sample)
    requires KeysInOrder(keys, s.labels) && PlainNames(s)
    ensures ParseLine(LineText(keys, s)) == Some(s)
  {
    var value := " " + Numbers.FormatFloat(s.value);
    Numbers.FloatRoundTrip(s.value);
    assert value[1..] == Numbers.FormatFloat(s.value);
    BracedRoundTrip(keys, s, value);
    NameRoundTrip(s.name, Braced(keys, s.labels) + value);
  }

  datatype Headline = Headline(name: string, text: string)

  /** A comment line with this prefix: a name, a space, and the rest. */
  function ReadHeader(prefix: string, line: string): Option<Headline> {
    if !(prefix <= line) then None
    else
      var body := line[|prefix|..];
      var name := ReadName(body);
      if |name| < |body| && body[|name|] == ' ' then Some(Headline(name, body[|name| + 1..])) else None
  }

  lemma HeaderRoundTrip(prefix: string, name: string, text: string)
    requires Plain(name)
    ensures ReadHeader(prefix, prefix + (name + (" " + text))) == Some(Headline(name, text))
  {
    var body := name + (" " + text);
    NameRoundTrip(name, " " + text);
    assert (prefix + body)[|prefix|..] == body;
    assert body[|name| + 1..] == text;
  }

  /** What a scraper learns from one line. */
  datatype Entry =
    | HelpEntry(name: string, desc: string)
    | TypeEntry(name: string, kind: string)
    | SampleEntry(sample: Sample)

  function ParseEntry(line: string): Option<Entry> {
    var help, kind, sample := ReadHeader(HELP, line), ReadHeader(TYPE, line), ParseLine(line);
    if help.Some? then Some(HelpEntry(help.value.name, help.value.text))
    else if kind.Some? then Some(TypeEntry(kind.value.name, kind.value.text))
    else if sample.Some? then Some(SampleEntry(sample.value))
    else None
  }

  function AddLine(line: string, more: Option<seq<Entry>>): Option<seq<Entry>> {
    var entry := ParseEntry(line);
    if entry.None? || more.None? then None else Some([entry.value] + more.value)
  }

  /** A whole scrape: every line must parse. */
  function Scrape(text: string): Option<seq<Entry>>
    decreases |text|
  {
    if text == "" then Some([])
    else
      var line := Numbers.Before(text, '\n');
      if |line| >= |text| then None else AddLine(line, Scrape(text[|line| + 1..]))
  }

  lemma ScrapeLine(line: string, more: string)
    requires '\n' !in line
    ensures Scrape(line + ("\n" + more)) == AddLine(line, Scrape(more))
  {
    var text := line + (['\n'] + more);
    Numbers.BeforeStops(line, '\n', more);
    assert text[|line| + 1..] == more;
  }

  /** What the format asks of a caller: plain names, and headers on one line. */
  predicate Printable(item: Item) {
    match item
    case Help(name, desc) => Plain(name) && '\n' !in desc
    case Type(name, kind) => Plain(name) && '\n' !in kind
    case Metric(sample, _) => PlainNames(sample)
  }

  function Meaning(item: Item): Entry {
    match item
    case Help(name, desc) => HelpEntry(name, desc)
    case Type(name, kind) => TypeEntry(name, kind)
    case Metric(sample, _) => SampleEntry(sample)
  }

  function Meanings(items: seq<Item>): seq<Entry> {
    if items == [] then [] else [Meaning(items[0])] + Meanings(items[1..])
  }

  lemma {:induction false} PairsHaveNoNewline(keys: seq<string>, labels: map<string, string>, comma: bool)
    requires forall k :: k in keys ==> k in labels && Plain(k)
    ensures '\n' !in Pairs(keys, labels, comma)
  {
    if keys == [] {
    } else {
      EscapeHasNoNewline(labels[keys[0]]);
      assert '\n' !in keys[0];
      assert '\n' !in Pair(keys[0], labels[keys[0]]);
      PairsHaveNoNewline(keys[1..], labels, true);
    }
  }

  lemma HeaderHasNoNewline(prefix: string, name: string, text: string)
    requires '\n' !in prefix && Plain(name) && '\n' !in text
    ensures '\n' !in prefix + (name + (" " + text))
  {
    assert '\n' !in name;
  }

  lemma LineHasNoNewline(name: string, braced: string, number: string)
    requires Plain(name) && '\n' !in braced
    requires forall i :: 0 <= i < |number| ==> Numbers.NumberChar(number[i])
    ensures '\n' !in name + (braced + (" " + number))
  {
    assert '\n' !in name && '\n' !in number;
  }

  lemma ItemHasNoNewline(item: Item)
    requires WellFormed(item) && Printable(item)
    ensures '\n' !in ItemText(item)
  {
    match item
    case Help(name, desc) => HeaderHasNoNewline(HELP, name, desc);
    case Type(name, kind) => HeaderHasNoNewline(TYPE, name, kind);
    case Metric(sample, keys) =>
      PairsHaveNoNewline(keys, sample.labels, false);
      Numbers.FormatChars(sample.value);
      LineHasNoNewline(sample.name, Braced(keys, sample.labels), Numbers.FormatFloat(sample.value));
  }

  lemma OtherPrefix(body: string)
    ensures ReadHeader(HELP, TYPE + body).None?
  {
    assert (TYPE + body)[2] == 'T';
    assert HELP[2] == 'H';
  }

  lemma SampleIsNoHeader(keys: seq<string>, s: Sample)
    requires KeysInOrder(keys, s.labels) && PlainNames(s)
    ensures ReadHeader(HELP, LineText(keys, s)).None? && ReadHeader(TYPE, LineText(keys, s)).None?
  {
    var rest := Braced(keys, s.labels) + (" " + Numbers.FormatFloat(s.value));
    assert rest[0] == '{' || rest[0] == ' ';
    assert LineText(keys, s)[0] == if s.name == "" then rest[0] else s.name[0];
    assert LineText(keys, s)[0] != '#';
    assert HELP[0] == '#' && TYPE[0] == '#';
  }

  lemma ItemReadsBack(item: Item)
    requires WellFormed(item) && Printable(item)
    ensures ParseEntry(ItemText(item)) == Some(Meaning(item))
  {
    match item
    case Help(name, desc) => HeaderRoundTrip(HELP, name, desc);
    case Type(name, kind) =>
      HeaderRoundTrip(TYPE, name, kind);
      OtherPrefix(name + (" " + kind));
    case Metric(sample, keys) =>
      LineRoundTrip(keys, sample);
      SampleIsNoHeader(keys, sample);
  }

  /** Scraping everything a writer printed gives every header and every sample once, in order,
      unchanged. */
  lemma {:induction false} ScrapeRoundTrip(items: seq<Item>)
    requires forall item :: item in items ==> WellFormed(item) && Printable(item)
    ensures Scrape(Text(items)) == Some(Meanings(items))
  {
    if items == [] {
    } else {
      ItemHasNoNewline(items[0]);
      ScrapeLine(ItemText(items[0]), Text(items[1..]));
      ScrapeRoundTrip(items[1..]);
      ItemReadsBack(items[0]);
    }
  }
}
