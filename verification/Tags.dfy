/** The `oscar:"..."` struct tags (wire/encode.go, parseOSCARTag). */
module Tags {
  import opened Wrappers
  import opened Codec

  datatype OscarTag = OscarTag(countPrefix: Option<PrefixWidth>, lenPrefix: Option<PrefixWidth>, isOptional: bool, nullTerminated: bool, quirk: string)

  const NO_TAG: OscarTag := OscarTag(None, None, false, false, "")

  // ---------------------------------------------------------------- strings

  /** `strings.Split`: never empty. */
  function Split(s: string, sep: char): (parts: seq<string>)
    ensures |parts| > 0 && forall i | 0 <= i < |parts| :: sep !in parts[i]
  {
    if s == "" then [""]
    else if s[0] == sep then [""] + Split(s[1..], sep)
    else
      var rest := Split(s[1..], sep);
      [[s[0]] + rest[0]] + rest[1..]
  }

  function Join(parts: seq<string>, sep: char): string
    requires |parts| > 0
  {
    if |parts| == 1 then parts[0] else parts[0] + [sep] + Join(parts[1..], sep)
  }

  lemma {:induction false} SplitPrefix(p: string, s: string, sep: char)
    requires sep !in p
    ensures Split(p + [sep] + s, sep) == [p] + Split(s, sep) && Split(p, sep) == [p]
    decreases |p|
  {
    if p == "" {
      assert p + [sep] + s == [sep] + s;
    } else {
      SplitPrefix(p[1..], s, sep);
      assert (p + [sep] + s)[1..] == p[1..] + [sep] + s;
      assert [p[0]] + p[1..] == p;
    }
  }

  /** Whatever has no comma in it comes apart again. */
  lemma {:induction false} SplitJoin(parts: seq<string>, sep: char)
    requires |parts| > 0 && forall i | 0 <= i < |parts| :: sep !in parts[i]
    ensures Split(Join(parts, sep), sep) == parts
    decreases |parts|
  {
    if |parts| == 1 {
      SplitPrefix(parts[0], "", sep);
    } else {
      SplitJoin(parts[1..], sep);
      SplitPrefix(parts[0], Join(parts[1..], sep), sep);
    }
  }

  /** `unicode.IsSpace`. */
  predicate IsSpace(c: char) {
    || c in "\t\n\U{0B}\U{0C}\r \U{85}\U{A0}\U{1680}\U{2028}\U{2029}\U{202F}\U{205F}\U{3000}"
    || '\U{2000}' <= c <= '\U{200A}'
  }

  function TrimLeft(s: string): string {
    if s != "" && IsSpace(s[0]) then TrimLeft(s[1..]) else s
  }

  function TrimRight(s: string): string {
    if s != "" && IsSpace(s[|s| - 1]) then TrimRight(s[..|s| - 1]) else s
  }

  function TrimSpace(s: string): string { TrimRight(TrimLeft(s)) }

  /** `SplitN(kv, "=", 2)`: a key, and a value if there is an equals sign. */
  function KeyValue(kv: string): (string, Option<string>) {
    if kv == "" then ("", None)
    else if kv[0] == '=' then ("", Some(kv[1..]))
    else
      var (k, v) := KeyValue(kv[1..]);
      ([kv[0]] + k, v)
  }

  // ---------------------------------------------------------------- entries

  type Nonempty = s: string | s != "" witness "q"

  datatype Entry = LenPrefix(width: PrefixWidth) | CountPrefix(width: PrefixWidth) | IsOptional | NullTerm | Quirk(name: Nonempty) | Unknown

  function WidthOf(kind: string): Option<PrefixWidth> {
    if kind == "uint8" then Some(1) else if kind == "uint16" then Some(2) else None
  }

  /** What one trimmed, nonempty piece of a tag says. */
  function EntryOf(kv: string): Entry {
    var (k, v) := KeyValue(kv);
    var key := TrimSpace(k);
    if v.Some? then
      var val := TrimSpace(v.value);
      if key == "len_prefix" && WidthOf(val).Some? then LenPrefix(WidthOf(val).value)
      else if key == "count_prefix" && WidthOf(val).Some? then CountPrefix(WidthOf(val).value)
      else if key == "quirk" && val != "" then Quirk(val)
      else Unknown
    else if key == "optional" then IsOptional
    else if key == "nullterm" then NullTerm
    else Unknown
  }

  /** The entries of a tag in order; empty pieces are skipped. */
  function EntriesOf(parts: seq<string>): seq<Entry> {
    if parts == [] then [] else
    var kv := TrimSpace(parts[|parts| - 1]);
    EntriesOf(parts[..|parts| - 1]) + if kv == "" then [] else [EntryOf(kv)]
  }

  // ---------------------------------------------------------------- what a tag means

  /** The width a kind of prefix was given last. */
  function LastLen(es: seq<Entry>): Option<PrefixWidth> {
    if es == [] then None else if es[|es| - 1].LenPrefix? then Some(es[|es| - 1].width) else LastLen(es[..|es| - 1])
  }

  function LastCount(es: seq<Entry>): Option<PrefixWidth> {
    if es == [] then None else if es[|es| - 1].CountPrefix? then Some(es[|es| - 1].width) else LastCount(es[..|es| - 1])
  }

  function QuirkOf(es: seq<Entry>): string {
    if es == [] then "" else if es[|es| - 1].Quirk? then es[|es| - 1].name else QuirkOf(es[..|es| - 1])
  }

  /** Every entry is known and no second quirk is named. */
  predicate Legal(es: seq<Entry>) {
    && Unknown !in es
    && forall i, j | 0 <= i < j < |es| :: !(es[i].Quirk? && es[j].Quirk?)
  }

  function Meaning(es: seq<Entry>): OscarTag {
    OscarTag(LastCount(es), LastLen(es), IsOptional in es, NullTerm in es, QuirkOf(es))
  }

  lemma {:induction false} QuirkNamed(es: seq<Entry>)
    ensures QuirkOf(es) != "" <==> exists i | 0 <= i < |es| :: es[i].Quirk?
    decreases |es|
  {
    if es != [] {
      QuirkNamed(es[..|es| - 1]);
      assert forall i | 0 <= i < |es| - 1 :: es[..|es| - 1][i] == es[i];
    }
  }

  /** One more entry: legal exactly if it is known and not a second quirk. */
  lemma LegalNext(es: seq<Entry>, e: Entry)
    ensures Legal(es + [e]) <==> Legal(es) && e != Unknown && (e.Quirk? ==> QuirkOf(es) == "")
  {
    QuirkNamed(es);
    var fs := es + [e];
    assert forall i | 0 <= i < |es| :: fs[i] == es[i];
    assert fs[|es|] == e;
  }

  /** What the switch does with one entry; `None` is its error. */
  function Taken(t: OscarTag, e: Entry): Option<OscarTag> {
    match e
    case LenPrefix(w) => Some(t.(lenPrefix := Some(w)))
    case CountPrefix(w) => Some(t.(countPrefix := Some(w)))
    case IsOptional => Some(t.(isOptional := true))
    case NullTerm => Some(t.(nullTerminated := true))
    case Quirk(n) => if t.quirk != "" then None else Some(t.(quirk := n))
    case Unknown => None
  }

  lemma TakenNext(es: seq<Entry>, e: Entry)
    requires Legal(es)
    ensures Taken(Meaning(es), e) == if Legal(es + [e]) then Some(Meaning(es + [e])) else None
  {
    LegalNext(es, e);
    assert (es + [e])[..|es|] == es;
  }

  function Piece(kv: string): seq<Entry> {
    if kv == "" then [] else [EntryOf(kv)]
  }

  lemma EntriesNext(parts: seq<string>, i: nat)
    requires i < |parts|
    ensures EntriesOf(parts[..i + 1]) == EntriesOf(parts[..i]) + Piece(TrimSpace(parts[i]))
  {
    assert parts[..i + 1][..i] == parts[..i] && parts[..i + 1][i] == parts[i];
  }

  /** A tag that is illegal so far stays so. */
  lemma {:induction false} IllegalStays(parts: seq<string>, i: nat)
    requires i <= |parts| && !Legal(EntriesOf(parts[..i]))
    ensures !Legal(EntriesOf(parts))
    decreases |parts| - i
  {
    if i == |parts| {
      assert parts[..i] == parts;
    } else {
      EntriesNext(parts, i);
      IllegalLonger(EntriesOf(parts[..i]), Piece(TrimSpace(parts[i])));
      IllegalStays(parts, i + 1);
    }
  }

  lemma IllegalLonger(es: seq<Entry>, more: seq<Entry>)
    requires !Legal(es)
    ensures !Legal(es + more)
  {
    var fs := es + more;
    assert forall i | 0 <= i < |es| :: fs[i] == es[i];
  }

  /** The loop over the entries, without the check for two prefixes. */
  method TakeAll(parts: seq<string>) returns (r: Option<OscarTag>)
    ensures r == if Legal(EntriesOf(parts)) then Some(Meaning(EntriesOf(parts))) else None
  {
    var t := NO_TAG;
    for i := 0 to |parts|
      invariant Legal(EntriesOf(parts[..i])) && t == Meaning(EntriesOf(parts[..i]))
    {
      EntriesNext(parts, i);
      ghost var es := EntriesOf(parts[..i]);
      var kv := TrimSpace(parts[i]);
      assert es + [] == es;
      if kv != "" {
        var e := EntryOf(kv);
        TakenNext(es, e);
        var next := Taken(t, e);
        if next.None? {
          IllegalStays(parts, i + 1);
          return None;
        }
        t := next.value;
      }
    }
    assert parts[..|parts|] == parts;
    return Some(t);
  }

  /**
   A tag is accepted exactly if every piece is known, at most one names a
   quirk, and length and count prefix do not both appear; a repeated prefix
   counts with its last width. `None` for the argument is a field without tag.
   */
  method ParseOSCARTag(tag: Option<string>) returns (r: Option<OscarTag>)
    ensures tag.None? ==> r == Some(NO_TAG)
    ensures tag.Some? ==>
      var es := EntriesOf(Split(tag.value, ','));
      r == if Legal(es) && !(LastCount(es).Some? && LastLen(es).Some?) then Some(Meaning(es)) else None
  {
    if tag.None? {
      return Some(NO_TAG);
    }
    var t := TakeAll(Split(tag.value, ','));
    if t.Some? && t.value.countPrefix.Some? && t.value.lenPrefix.Some? {
      return None;
    }
    return t;
  }

  // ---------------------------------------------------------------- the pieces themselves

  lemma {:induction false} KeyThenValue(k: string, v: string)
    requires '=' !in k
    ensures KeyValue(k + "=" + v) == (k, Some(v)) && KeyValue(k) == (k, None)
    decreases |k|
  {
    if k == "" {
      assert k + "=" + v == "=" + v;
    } else {
      KeyThenValue(k[1..], v);
      assert (k + "=" + v)[1..] == k[1..] + "=" + v;
      assert [k[0]] + k[1..] == k;
    }
  }

  /** White space at the start goes, and at the end. */
  lemma PaddingGoes(s: string, c: char)
    requires c == ' ' || c == '\t' || c == '\n' || c == '\r'
    ensures TrimSpace([c] + s) == TrimSpace(s)
  {
    assert ([c] + s)[1..] == s;
  }

  lemma TrailingGoes(s: string, c: char)
    requires c == ' ' || c == '\t' || c == '\n' || c == '\r'
    ensures TrimRight(s + [c]) == TrimRight(s)
  {
    assert (s + [c])[..|s|] == s;
  }

  /** Nothing to trim. */
  predicate Trimmed(s: string) {
    s != "" ==> !IsSpace(s[0]) && !IsSpace(s[|s| - 1])
  }

  /** Every piece there is. */
  lemma EntryIs(key: string, val: string)
    requires '=' !in key && Trimmed(key) && Trimmed(val)
    ensures EntryOf(key + "=" + val)
         == if key == "len_prefix" && val == "uint8" then LenPrefix(1)
            else if key == "len_prefix" && val == "uint16" then LenPrefix(2)
            else if key == "count_prefix" && val == "uint8" then CountPrefix(1)
            else if key == "count_prefix" && val == "uint16" then CountPrefix(2)
            else if key == "quirk" && val != "" then Quirk(val)
            else Unknown
    ensures EntryOf(key) == if key == "optional" then IsOptional else if key == "nullterm" then NullTerm else Unknown
  {
    KeyThenValue(key, val);
  }

  /** What each entry adds to what the ones before it mean; without any there is nothing. */
  lemma MeaningNext(es: seq<Entry>, e: Entry)
    ensures Meaning([]) == OscarTag(None, None, false, false, "")
    ensures var t, u := Meaning(es), Meaning(es + [e]);
      match e
      case LenPrefix(w) => u == t.(lenPrefix := Some(w))
      case CountPrefix(w) => u == t.(countPrefix := Some(w))
      case IsOptional => u == t.(isOptional := true)
      case NullTerm => u == t.(nullTerminated := true)
      case Quirk(name) => u == t.(quirk := name)
      case Unknown => u == t
  {
    assert (es + [e])[..|es|] == es;
  }
}
