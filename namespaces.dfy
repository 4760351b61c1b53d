/**
  Namespace expansion of compact `prefix:name` symbols (`expand_ns`),
  written as the source computes it: `symbol.split(":", 2)` followed by
  `namespaces[sp[0]] + "".join(sp[1:])`.
 */
module Namespaces {
  import opened Base

  const CWLDEP_URL := "http://commonwl.org/cwldep#"
  const CWLDEP_DEPENDENCIES_URL := CWLDEP_URL + "Dependencies"

  /** Position of the first `c` in `s`, if any. */
  function IndexOf(s: string, c: char): (r: Option<nat>)
    ensures r.Some? ==> r.value < |s| && s[r.value] == c && c !in s[..r.value]
    ensures r.None? <==> c !in s
  {
    if s == [] then None
    else if s[0] == c then Some(0)
    else match IndexOf(s[1..], c)
      case None => None
      case Some(i) =>
        assert s[..i + 1] == [s[0]] + s[1..][..i];
        Some(i + 1)
  }

  /** Python's `s.split(sep, maxsplit)`: at most `maxsplit` cuts, from the left. */
  function Split(s: string, sep: char, maxsplit: nat): (parts: seq<string>)
    ensures 1 <= |parts| <= maxsplit + 1
    decreases maxsplit
  {
    if maxsplit == 0 then [s]
    else match IndexOf(s, sep)
      case None => [s]
      case Some(i) => [s[..i]] + Split(s[i + 1..], sep, maxsplit - 1)
  }

  /** Python's `"".join(parts)`. */
  function Concat(parts: seq<string>): string {
    if parts == [] then "" else parts[0] + Concat(parts[1..])
  }

  /** `expand_ns(namespaces, symbol)`. */
  function ExpandNs(namespaces: map<string, string>, symbol: string): string {
    var sp := Split(symbol, ':', 2);
    if sp[0] in namespaces then namespaces[sp[0]] + Concat(sp[1..]) else symbol
  }

  // ---------------------------------------------------------------------
  // An independent description of the same behaviour, by colon positions.

  /** The text before the first colon, or the whole symbol when it has none. */
  function Prefix(symbol: string): string {
    match IndexOf(symbol, ':')
    case None => symbol
    case Some(i) => symbol[..i]
  }

  /** `s` with its first `c` (if any) taken out. */
  function DropFirst(s: string, c: char): string {
    match IndexOf(s, c)
    case None => s
    case Some(j) => s[..j] + s[j + 1..]
  }

  /** The text after the first colon, with the next colon dropped; empty without a colon. */
  function LocalName(symbol: string): string {
    match IndexOf(symbol, ':')
    case None => ""
    case Some(i) => DropFirst(symbol[i + 1..], ':')
  }

  /** `expand_ns` prepends the namespace of a known prefix to the local name,
      and leaves a symbol with an unknown prefix as it is. */
  lemma ExpandNsSpec(namespaces: map<string, string>, symbol: string)
    ensures Prefix(symbol) in namespaces ==>
      ExpandNs(namespaces, symbol) == namespaces[Prefix(symbol)] + LocalName(symbol)
    ensures Prefix(symbol) !in namespaces ==> ExpandNs(namespaces, symbol) == symbol
  {
    SplitJoin(symbol);
  }

  /** `split(":", 2)` yields the prefix first, and joining the remaining
      parts gives the local name. */
  lemma SplitJoin(symbol: string)
    ensures Split(symbol, ':', 2)[0] == Prefix(symbol)
    ensures Concat(Split(symbol, ':', 2)[1..]) == LocalName(symbol)
  {
    match IndexOf(symbol, ':')
    case None =>
      assert Split(symbol, ':', 2) == [symbol];
    case Some(i) =>
      SplitAtColon(symbol, i);
  }

  /** The colon case of `SplitJoin`. */
  lemma SplitAtColon(symbol: string, i: nat)
    requires IndexOf(symbol, ':') == Some(i)
    ensures Split(symbol, ':', 2)[0] == symbol[..i]
    ensures Concat(Split(symbol, ':', 2)[1..]) == DropFirst(symbol[i + 1..], ':')
  {
    var sp, rest := Split(symbol, ':', 2), symbol[i + 1..];
    assert sp == [symbol[..i]] + Split(rest, ':', 1);
    assert sp[1..] == Split(rest, ':', 1);
    SplitOnce(rest);
  }

  /** One cut, joined back without its separator, is `DropFirst`. */
  lemma SplitOnce(rest: string)
    ensures Concat(Split(rest, ':', 1)) == DropFirst(rest, ':')
  {
    match IndexOf(rest, ':')
    case None =>
      assert Split(rest, ':', 1) == [rest];
      assert Concat([rest]) == rest + Concat([]);
    case Some(j) =>
      var tail := [rest[..j], rest[j + 1..]];
      assert Split(rest, ':', 1) == tail;
      assert tail[1..] == [rest[j + 1..]] && tail[1..][1..] == [];
      assert Concat(tail) == rest[..j] + (rest[j + 1..] + Concat([]));
  }

  /** The first colon of `x + [c] + y` is the one after `x` when `x` has none. */
  lemma {:induction false} IndexOfAfter(x: string, c: char, y: string)
    requires c !in x
    ensures IndexOf(x + [c] + y, c) == Some(|x|)
  {
    if x != [] {
      assert (x + [c] + y)[1..] == x[1..] + [c] + y;
      IndexOfAfter(x[1..], c, y);
    }
  }

  /** The prefix of `prefix:rest` is `prefix` and its local name is `rest`
      without its first colon. */
  lemma SplitAtFirstColon(prefix: string, rest: string)
    requires ':' !in prefix
    ensures Prefix(prefix + [':'] + rest) == prefix
    ensures LocalName(prefix + [':'] + rest) == DropFirst(rest, ':')
  {
    var symbol := prefix + [':'] + rest;
    IndexOfAfter(prefix, ':', rest);
    assert symbol[..|prefix|] == prefix && symbol[|prefix| + 1..] == rest;
  }

  /** Taking the first colon out of `a:b` leaves `ab`. */
  lemma DropFirstColon(a: string, b: string)
    requires ':' !in a
    ensures DropFirst(a + [':'] + b, ':') == a + b
  {
    var rest := a + [':'] + b;
    IndexOfAfter(a, ':', b);
    assert rest[..|a|] == a && rest[|a| + 1..] == b;
  }

  /** A known prefix before the first colon: its namespace, then the rest without its first colon. */
  lemma ExpandAtFirstColon(namespaces: map<string, string>, prefix: string, rest: string)
    requires ':' !in prefix && prefix in namespaces
    ensures ExpandNs(namespaces, prefix + [':'] + rest) == namespaces[prefix] + DropFirst(rest, ':')
  {
    SplitAtFirstColon(prefix, rest);
    ExpandNsSpec(namespaces, prefix + [':'] + rest);
  }

  /** `dep:symbol` becomes the `dep` namespace followed by `symbol`. */
  lemma ExpandKnownPrefix(namespaces: map<string, string>, prefix: string, name: string)
    requires ':' !in prefix && ':' !in name
    requires prefix in namespaces
    ensures ExpandNs(namespaces, prefix + ":" + name) == namespaces[prefix] + name
  {
    assert prefix + ":" + name == prefix + [':'] + name;
    ExpandAtFirstColon(namespaces, prefix, name);
    assert IndexOf(name, ':') == None;
  }

  /** The quirk of `split(":", 2)` and `"".join`: a second colon disappears. */
  lemma ExpandDropsSecondColon(namespaces: map<string, string>, prefix: string, a: string, b: string)
    requires ':' !in prefix && ':' !in a
    requires prefix in namespaces
    ensures ExpandNs(namespaces, prefix + ":" + a + ":" + b) == namespaces[prefix] + a + b
  {
    var rest := a + [':'] + b;
    assert prefix + ":" + a + ":" + b == prefix + [':'] + rest;
    ExpandAtFirstColon(namespaces, prefix, rest);
    DropFirstColon(a, b);
  }

  /** A symbol whose prefix is not a known namespace, including a symbol
      without a colon that is not itself a key, comes back unchanged. */
  lemma ExpandUnknownPrefix(namespaces: map<string, string>, symbol: string)
    requires Prefix(symbol) !in namespaces
    ensures ExpandNs(namespaces, symbol) == symbol
  {
    ExpandNsSpec(namespaces, symbol);
  }

  /** A symbol without a colon that is itself a key expands to that namespace. */
  lemma ExpandBareKey(namespaces: map<string, string>, symbol: string)
    requires ':' !in symbol && symbol in namespaces
    ensures ExpandNs(namespaces, symbol) == namespaces[symbol]
  {
    ExpandNsSpec(namespaces, symbol);
  }

  // The three cases the unit tests pin down, for any namespaces that, like
  // the tests' `{"dep": CWLDEP_URL}`, bind `dep` and neither `symbol` nor
  // `other`: a bare symbol, a known prefix and an unknown prefix.

  /** A bare symbol that is not a key comes back unchanged. */
  lemma ExpandNsNoColonExample(namespaces: map<string, string>)
    requires "symbol" !in namespaces
    ensures ExpandNs(namespaces, "symbol") == "symbol"
  {
    assert IndexOf("symbol", ':') == None;
    ExpandUnknownPrefix(namespaces, "symbol");
  }

  /** `dep:symbol` expands to the cwldep namespace followed by `symbol`. */
  lemma ExpandNsKnownExample(namespaces: map<string, string>)
    requires "dep" in namespaces && namespaces["dep"] == CWLDEP_URL
    ensures ExpandNs(namespaces, "dep:symbol") == CWLDEP_URL + "symbol"
  {
    assert "dep:symbol" == "dep" + ":" + "symbol";
    ExpandKnownPrefix(namespaces, "dep", "symbol");
  }

  /** The unknown-namespace case in general: `prefix:name` with a prefix that
      is not a key comes back unchanged (`other:symbol` in the tests). */
  lemma ExpandUnknownColonPrefix(namespaces: map<string, string>, prefix: string, name: string)
    requires ':' !in prefix && prefix !in namespaces
    ensures ExpandNs(namespaces, prefix + ":" + name) == prefix + ":" + name
  {
    assert prefix + ":" + name == prefix + [':'] + name;
    SplitAtFirstColon(prefix, name);
    ExpandUnknownPrefix(namespaces, prefix + [':'] + name);
  }
}
