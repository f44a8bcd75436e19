/** Shared vocabulary of the knowledge store: optional values, the closed sets of
    content types and tags, the JSON text the relational store keeps tags in, and
    the few JavaScript string operations (`includes`, `startsWith`, `substring`,
    `join`) that the core uses. */
module Base {

  datatype Option<+T> = None | Some(value: T) {
    function GetOr(default: T): T {
      match this
      case Some(v) => v
      case None => default
    }
  }

  /** The outcome of an operation that may throw: a value or the error it throws. */
  datatype Result<+T, +E> = Ok(value: T) | Err(error: E)

  /** The closed content-type tag of an entry: 'TEXT' | 'YOUTUBE_LINK' | 'X_POST_LINK'. */
  datatype ContentType = Text | YouTubeLink | XPostLink

  /** The fixed tag vocabulary. */
  datatype Tag = ToDoResearchOn | Important | Learning | Investing | AI | Finance

  function TagName(t: Tag): string {
    match t
    case ToDoResearchOn => "To Do Research On"
    case Important => "Important"
    case Learning => "Learning"
    case Investing => "Investing"
    case AI => "AI"
    case Finance => "Finance"
  }

  /** JavaScript truthiness of an optional string: present and not empty. */
  predicate Truthy(s: Option<string>) {
    s.Some? && s.value != ""
  }

  /** `s.includes(sub)`: a case-sensitive substring test. */
  predicate Contains(s: string, sub: string)
    decreases |s|
  {
    |sub| <= |s| && (s[..|sub|] == sub || Contains(s[1..], sub))
  }

  /** An occurrence of `sub` at any position makes `Contains` true. */
  lemma {:induction false} ContainsAt(s: string, sub: string, i: nat)
    requires i + |sub| <= |s| && s[i..i + |sub|] == sub
    ensures Contains(s, sub)
    decreases i
  {
    if i > 0 {
      assert s[1..][i - 1..i - 1 + |sub|] == s[i..i + |sub|];
      ContainsAt(s[1..], sub, i - 1);
    }
  }

  /** `s.startsWith(p)` */
  predicate StartsWith(s: string, p: string) {
    |p| <= |s| && s[..|p|] == p
  }

  /** `s.endsWith(p)` */
  predicate EndsWith(s: string, p: string) {
    |p| <= |s| && s[|s| - |p|..] == p
  }

  /** `lit` occurs in `s` at position `i`. */
  predicate OccursAt(s: string, i: nat, lit: string) {
    i + |lit| <= |s| && s[i..i + |lit|] == lit
  }

  /** `s.substring(0, n)` */
  function Prefix(s: string, n: nat): (r: string)
    ensures |r| <= n && |r| <= |s|
    ensures r == s[..|r|]
  {
    if n <= |s| then s[..n] else s
  }

  /** `s.substring(0, n) + (s.length > n ? '...' : '')`, the truncation every title
      and preview in the core uses. */
  function Ellipsize(s: string, n: nat): (r: string)
    ensures |s| <= n ==> r == s
    ensures |s| > n ==> |r| == n + 3 && r[..n] == s[..n] && r[n..] == "..."
  {
    Prefix(s, n) + (if |s| > n then "..." else "")
  }

  /** `parts.join(sep)` */
  function Join(sep: string, parts: seq<string>): string
    decreases |parts|
  {
    if parts == [] then ""
    else if |parts| == 1 then parts[0]
    else parts[0] + sep + Join(sep, parts[1..])
  }

  // ---------------------------------------------------------------------------
  // Tags as the relational store keeps them: `JSON.stringify(tags)`.

  function Quoted(t: Tag): string {
    "\"" + TagName(t) + "\""
  }

  function JsonItems(tags: seq<Tag>): string
    decreases |tags|
  {
    if tags == [] then ""
    else if |tags| == 1 then Quoted(tags[0])
    else Quoted(tags[0]) + "," + JsonItems(tags[1..])
  }

  /** `JSON.stringify(tags)` for a list of vocabulary tags, e.g. `["AI","Finance"]`. */
  function TagsJson(tags: seq<Tag>): (s: string)
    ensures |s| >= 2 && s[0] == '[' && s[|s| - 1] == ']'
  {
    "[" + JsonItems(tags) + "]"
  }

  function TagNamed(name: string): Option<Tag> {
    if name == "To Do Research On" then Some(ToDoResearchOn)
    else if name == "Important" then Some(Important)
    else if name == "Learning" then Some(Learning)
    else if name == "Investing" then Some(Investing)
    else if name == "AI" then Some(AI)
    else if name == "Finance" then Some(Finance)
    else None
  }

  /** Index of the first double quote in `s`, if any. */
  function FirstQuote(s: string): (r: Option<nat>)
    ensures r.Some? ==> r.value < |s| && s[r.value] == '"' && '"' !in s[..r.value]
    ensures r.None? ==> '"' !in s
    decreases |s|
  {
    if s == [] then None
    else if s[0] == '"' then Some(0)
    else match FirstQuote(s[1..])
      case None => None
      case Some(k) => Some(k + 1)
  }

  /** Parses a non-empty comma-separated list of quoted vocabulary tags. */
  function ParseItemList(s: string): Option<seq<Tag>>
    decreases |s|
  {
    if |s| == 0 || s[0] != '"' then None
    else match FirstQuote(s[1..])
      case None => None
      case Some(k) =>
        match TagNamed(s[1..k + 1])
        case None => None
        case Some(t) =>
          var rest := s[k + 2..];
          if rest == "" then Some([t])
          else if rest[0] == ',' then
            match ParseItemList(rest[1..])
            case None => None
            case Some(ts) => Some([t] + ts)
          else None
  }

  /** `JSON.parse(s) as Tag[]` on the compact arrays `TagsJson` writes. */
  function ParseTags(s: string): Option<seq<Tag>> {
    if |s| >= 2 && s[0] == '[' && s[|s| - 1] == ']' then
      var inner := s[1..|s| - 1];
      if inner == "" then Some([]) else ParseItemList(inner)
    else None
  }

  lemma NameRoundTrip(t: Tag)
    ensures TagNamed(TagName(t)) == Some(t)
    ensures '"' !in TagName(t)
  {
  }

  lemma {:induction false} FirstQuoteAfterName(name: string, rest: string)
    requires '"' !in name
    ensures FirstQuote(name + "\"" + rest) == Some(|name|)
    decreases |name|
  {
    if name != [] {
      assert (name + "\"" + rest)[1..] == name[1..] + "\"" + rest;
      FirstQuoteAfterName(name[1..], rest);
    }
  }

  /** A quoted tag followed by a comma parses as that tag, then the rest. */
  lemma ParseFirstItem(t: Tag, tail: string)
    ensures ParseItemList(Quoted(t) + "," + tail) ==
            if ParseItemList(tail).Some? then Some([t] + ParseItemList(tail).value) else None
  {
    ParseItemAt(t, "," + tail);
    assert ("," + tail)[1..] == tail;
    assert Quoted(t) + "," + tail == Quoted(t) + ("," + tail);
  }

  /** A quoted tag on its own parses as that tag. */
  lemma ParseLastItem(t: Tag)
    ensures ParseItemList(Quoted(t)) == Some([t])
  {
    ParseItemAt(t, "");
    assert Quoted(t) + "" == Quoted(t);
  }

  /** The first item of `Quoted(t) + rest` is `t`, and parsing resumes at `rest`. */
  lemma ParseItemAt(t: Tag, rest: string)
    ensures var s := Quoted(t) + rest;
            var k := |TagName(t)|;
            && s[0] == '"' && FirstQuote(s[1..]) == Some(k) && TagNamed(s[1..k + 1]) == Some(t)
            && s[k + 2..] == rest
  {
    var name := TagName(t);
    NameRoundTrip(t);
    var s := Quoted(t) + rest;
    assert s == "\"" + (name + "\"" + rest);
    FirstQuoteAfterName(name, rest);
    assert s[1..] == name + "\"" + rest;
    assert s[1..|name| + 1] == name;
  }

  lemma {:induction false} ItemsRoundTrip(tags: seq<Tag>)
    requires tags != []
    ensures ParseItemList(JsonItems(tags)) == Some(tags)
    decreases |tags|
  {
    var t := tags[0];
    if |tags| == 1 {
      ParseLastItem(t);
      assert [t] == tags;
    } else {
      ParseFirstItem(t, JsonItems(tags[1..]));
      ItemsRoundTrip(tags[1..]);
      assert [t] + tags[1..] == tags;
    }
  }

  /** Tags written as JSON read back as the same list, order and repetitions
      included, and the omitted list reads back as `[]`. */
  lemma TagsRoundTrip(tags: seq<Tag>)
    ensures ParseTags(TagsJson(tags)) == Some(tags)
  {
    var s := TagsJson(tags);
    assert s[1..|s| - 1] == JsonItems(tags);
    if tags != [] {
      ItemsRoundTrip(tags);
      assert JsonItems(tags)[0] == '"';
    }
  }

  // ---------------------------------------------------------------------------
  // Identifier generation: a store hands out ids it has never handed out before.

  /** Some length exceeds that of every string in `used`. */
  lemma {:induction false} LongerThanAll(used: set<string>) returns (n: nat)
    ensures forall s :: s in used ==> |s| < n
    decreases used
  {
    if used == {} {
      return 0;
    }
    var x :| x in used;
    var m := LongerThanAll(used - {x});
    n := if m > |x| then m else |x| + 1;
  }

  /** However many ids have been handed out, a new one exists. */
  lemma FreshIdExists(used: set<string>)
    ensures exists id: string :: id !in used
  {
    var n := LongerThanAll(used);
    var s: string := seq(n, _ => 'a');
    assert s !in used;
  }
}
