/**
 * The Lucene filter strings of the legacy tensor search: a filter that restricts a
 * search to some attributes, a user filter whose field names are moved under the
 * chunks field, and the escaping of Lucene's special characters in field names.
 * The names `TensorField.chunks` and `TensorField.field_name` and the set of special
 * characters are not part of this model; they are the parameters in `Names`.
 */
module Filtering {
  import opened Wrappers
  import Seqs

  /** `TensorField.chunks`, `TensorField.field_name`, and the union of the two special-character sets. */
  datatype Names = Names(chunks: string, fieldName: string, specials: set<char>)

  /** Python's `s.replace(pat, rep)` for a non-empty `pat`: every occurrence, left to right, not overlapping. */
  function ReplaceAll(s: string, pat: string, rep: string): string
    requires |pat| > 0
    decreases |s|
  {
    if |s| < |pat| then s
    else if s[..|pat|] == pat then rep + ReplaceAll(s[|pat|..], pat, rep)
    else [s[0]] + ReplaceAll(s[1..], pat, rep)
  }

  /** Python's `t in s` for strings. */
  predicate Contains(s: string, t: string)
    decreases |s|
  {
    t <= s || (|s| > 0 && Contains(s[1..], t))
  }

  /** `s.split(':')[0]`: the text before the first colon, or all of `s`. */
  function BeforeColon(s: string): (r: string)
    ensures r <= s
    ensures ':' !in r
    ensures |r| < |s| ==> s[|r|] == ':'
  {
    if s == [] || s[0] == ':' then [] else [s[0]] + BeforeColon(s[1..])
  }

  /** A string without an occurrence of the pattern is left as it is. */
  lemma {:induction false} ReplaceAllAbsent(s: string, pat: string, rep: string)
    requires |pat| > 0 && !Contains(s, pat)
    ensures ReplaceAll(s, pat, rep) == s
  {
    if |s| >= |pat| {
      assert s[..|pat|] != pat by {
        assert s[..|pat|] == pat ==> pat <= s;
      }
      ReplaceAllAbsent(s[1..], pat, rep);
      assert s == [s[0]] + s[1..];
    }
  }

  /** Replacing one character distributes over concatenation. */
  lemma {:induction false} ReplaceCharConcat(a: string, b: string, c: char, rep: string)
    ensures ReplaceAll(a + b, [c], rep) == ReplaceAll(a, [c], rep) + ReplaceAll(b, [c], rep)
  {
    if a == [] {
      assert a + b == b;
    } else {
      var ab := a + b;
      assert ab[1..] == a[1..] + b;
      assert ab[..1] == a[..1] == [a[0]];
      ReplaceCharConcat(a[1..], b, c, rep);
      var head := if a[0] == c then rep else [a[0]];
      assert ReplaceAll(ab, [c], rep) == head + ReplaceAll(ab[1..], [c], rep);
      assert ReplaceAll(a, [c], rep) == head + ReplaceAll(a[1..], [c], rep);
    }
  }

  /** Each character of `s` in `S` preceded by a backslash: the reference definition of escaping. */
  function EscapeChars(s: string, S: set<char>): string
  {
    if s == [] then [] else (if s[0] in S then ['\\', s[0]] else [s[0]]) + EscapeChars(s[1..], S)
  }

  /** Escaping nothing is the identity. */
  lemma {:induction false} EscapeNone(s: string)
    ensures EscapeChars(s, {}) == s
  {
    if s != [] {
      EscapeNone(s[1..]);
      assert s == [s[0]] + s[1..];
    }
  }

  /**
   * One `replace(c, '\\' + c)` on a string escaped for `S` escapes `c` as well, as long
   * as the backslashes already inserted are not themselves `c`.
   */
  lemma {:induction false} EscapeStep(s: string, S: set<char>, c: char)
    requires c !in S && (c == '\\' ==> S == {})
    ensures ReplaceAll(EscapeChars(s, S), [c], ['\\', c]) == EscapeChars(s, S + {c})
  {
    if s != [] {
      var head := if s[0] in S then ['\\', s[0]] else [s[0]];
      ReplaceCharConcat(head, EscapeChars(s[1..], S), c, ['\\', c]);
      EscapeStep(s[1..], S, c);
      EscapeHead(s[0], S, c);
    }
  }

  /** `EscapeStep` on one character. */
  lemma EscapeHead(x: char, S: set<char>, c: char)
    requires c !in S && (c == '\\' ==> S == {})
    ensures ReplaceAll(if x in S then ['\\', x] else [x], [c], ['\\', c])
            == if x in S || x == c then ['\\', x] else [x]
  {
    if x in S {
      assert ReplaceAll(['\\', x], [c], ['\\', c]) == ['\\'] + ReplaceAll([x], [c], ['\\', c]);
    }
  }

  /** The characters occurring in `order`. */
  function Chars(order: seq<char>): set<char>
  {
    set c | c in order
  }

  /** `order` lists the characters of `S`, each once: an iteration order of the set. */
  predicate Enumerates(order: seq<char>, S: set<char>)
  {
    (forall i, j :: 0 <= i < j < |order| ==> order[i] != order[j]) && (forall c :: c in order <==> c in S)
  }

  /**
   * The loop of `sanitise_lucene_special_chars`: escapes each character of `order` in
   * turn. Whatever the order, the result escapes the whole set.
   */
  method EscapeEach(t: string, ghost original: string, base: set<char>, order: seq<char>) returns (r: string)
    requires t == EscapeChars(original, base)
    requires Enumerates(order, Chars(order)) && '\\' !in order
    requires forall c :: c in order ==> c !in base
    ensures r == EscapeChars(original, base + Chars(order))
  {
    r := t;
    var i := 0;
    assert base + Chars(order[..0]) == base;
    while i < |order|
      invariant 0 <= i <= |order|
      invariant r == EscapeChars(original, base + Chars(order[..i]))
    {
      var c := order[i];
      ghost var S := base + Chars(order[..i]);
      assert c !in S by {
        assert forall j :: 0 <= j < i ==> order[j] != c;
      }
      EscapeStep(original, S, c);
      r := ReplaceAll(r, [c], ['\\', c]);
      assert Chars(order[..i + 1]) == Chars(order[..i]) + {c} by {
        Seqs.TakeSnoc(order, i);
      }
      assert S + {c} == base + Chars(order[..i + 1]);
      i := i + 1;
    }
    assert order[..i] == order;
  }

  /**
   * The escaping `sanitise_lucene_special_chars` performs as written: the backslash
   * replacement's result is discarded, so only the special characters other than the
   * backslash are escaped. The filter builders escape names this way.
   */
  function Escaped(s: string, names: Names): string
  {
    EscapeChars(s, names.specials - {'\\'})
  }

  /** `sanitise_lucene_special_chars` as written. */
  method SanitiseAsWritten(s: string, names: Names, order: seq<char>) returns (r: string)
    requires Enumerates(order, names.specials - {'\\'})
    ensures r == Escaped(s, names)
  {
    var discarded := ReplaceAll(s, "\\", "\\\\");
    EscapeNone(s);
    r := EscapeEach(s, s, {}, order);
    assert {} + Chars(order) == names.specials - {'\\'};
  }

  /** What escaping is for: Lucene reads `\x` as `x`. */
  function Unescape(s: string): string
  {
    if s == [] then []
    else if s[0] == '\\' && |s| >= 2 then [s[1]] + Unescape(s[2..])
    else [s[0]] + Unescape(s[1..])
  }

  /** The name as written is not read back by Lucene: `\a` (a backslash, then a plain letter) reads as `a`. */
  lemma AsWrittenLosesBackslash(names: Names)
    requires 'a' !in names.specials
    ensures Escaped("\\a", names) == "\\a"
    ensures Unescape(Escaped("\\a", names)) == "a"
  {
    var S := names.specials - {'\\'};
    var s := "\\a";
    assert s[1..] == "a" && "a"[1..] == [];
    assert EscapeChars("a", S) == "a";
    assert EscapeChars(s, S) == ['\\'] + EscapeChars("a", S);
    assert s[2..] == [];
  }

  /** The evidently intended escaping: every special character, the backslash included. */
  function Sanitised(s: string, names: Names): string
  {
    EscapeChars(s, names.specials + {'\\'})
  }

  /** Escaping with the backslash among the escaped characters is undone by Lucene: a round trip. */
  lemma {:induction false} UnescapeEscaped(s: string, S: set<char>)
    requires '\\' in S
    ensures Unescape(EscapeChars(s, S)) == s
  {
    if s != [] {
      UnescapeEscaped(s[1..], S);
      var rest := EscapeChars(s[1..], S);
      if s[0] in S {
        assert EscapeChars(s, S) == ['\\', s[0]] + rest;
        assert (['\\', s[0]] + rest)[2..] == rest;
      } else {
        assert EscapeChars(s, S) == [s[0]] + rest;
        assert ([s[0]] + rest)[1..] == rest;
      }
      assert s == [s[0]] + s[1..];
    }
  }

  /** Lucene reads every sanitised name back as the name itself. */
  lemma SanitisedRoundTrip(s: string, names: Names)
    ensures Unescape(Sanitised(s, names)) == s
  {
    UnescapeEscaped(s, names.specials + {'\\'});
  }

  /** `sanitise_lucene_special_chars` with the backslash replacement kept: backslashes first, then each other special character. */
  method Sanitise(s: string, names: Names, order: seq<char>) returns (r: string)
    requires Enumerates(order, names.specials - {'\\'})
    ensures r == Sanitised(s, names)
  {
    r := ReplaceAll(s, "\\", "\\\\");
    EscapeNone(s);
    EscapeStep(s, {}, '\\');
    assert {} + {'\\'} == {'\\'};
    r := EscapeEach(r, s, {'\\'}, order);
    assert {'\\'} + Chars(order) == names.specials + {'\\'};
  }

  /** One clause of the attributes filter: `<chunks>.<field_name>:(<escaped attribute>)`. */
  function Clause(attribute: string, names: Names): string
  {
    names.chunks + "." + names.fieldName + ":(" + Escaped(attribute, names) + ")"
  }

  /** As written, the attribute `\a` gives the clause `...:(\a)`, which Lucene reads as the attribute `a`. */
  lemma AsWrittenClauseLosesBackslash(names: Names)
    requires 'a' !in names.specials
    ensures Clause("\\a", names) == names.chunks + "." + names.fieldName + ":(" + "\\a" + ")"
    ensures Unescape(Escaped("\\a", names)) == "a"
  {
    AsWrittenLosesBackslash(names);
  }

  /** `build_searchable_attributes_filter`: one clause per attribute, the last attribute first, joined by " OR ". */
  function AttributesFilter(attributes: seq<string>, names: Names): string
  {
    if |attributes| == 0 then ""
    else if |attributes| == 1 then Clause(attributes[0], names)
    else Clause(attributes[|attributes| - 1], names) + " OR " + AttributesFilter(attributes[..|attributes| - 1], names)
  }

  /** `sep.join(parts)`. */
  function Join(sep: string, parts: seq<string>): string
  {
    if parts == [] then "" else if |parts| == 1 then parts[0] else parts[0] + sep + Join(sep, parts[1..])
  }

  /** The clauses of `attributes` in reverse order. */
  function ReversedClauses(attributes: seq<string>, names: Names): (r: seq<string>)
    ensures |r| == |attributes|
    ensures forall i :: 0 <= i < |r| ==> r[i] == Clause(attributes[|attributes| - 1 - i], names)
  {
    seq(|attributes|, i requires 0 <= i < |attributes| => Clause(attributes[|attributes| - 1 - i], names))
  }

  /** The filter is the " OR "-join of the clauses, last attribute first. */
  lemma {:induction false} AttributesFilterJoins(attributes: seq<string>, names: Names)
    ensures AttributesFilter(attributes, names) == Join(" OR ", ReversedClauses(attributes, names))
  {
    var n := |attributes|;
    if n > 1 {
      AttributesFilterJoins(attributes[..n - 1], names);
      assert ReversedClauses(attributes, names)[1..] == ReversedClauses(attributes[..n - 1], names);
    }
  }

  /** A Python list of attribute names, which `build_searchable_attributes_filter` empties by popping. */
  class AttributeList {
    var items: seq<string>

    constructor (items: seq<string>)
      ensures this.items == items
    {
      this.items := items;
    }

    /** `list.pop()`. */
    method Pop() returns (x: string)
      requires |items| > 0
      modifies this
      ensures old(items) == items + [x]
    {
      x := items[|items| - 1];
      items := items[..|items| - 1];
    }
  }

  /** `build_searchable_attributes_filter(attributes)`: pops every attribute off the list it is given. */
  method BuildSearchableAttributesFilter(attributes: AttributeList, names: Names, order: seq<char>) returns (r: string)
    requires Enumerates(order, names.specials - {'\\'})
    modifies attributes
    ensures r == AttributesFilter(old(attributes.items), names)
    ensures attributes.items == []
    decreases |attributes.items|
  {
    if |attributes.items| == 0 {
      return "";
    }
    var count := |attributes.items|;
    var attribute := attributes.Pop();
    var sanitised := SanitiseAsWritten(attribute, names, order);
    var clause := names.chunks + "." + names.fieldName + ":(" + sanitised + ")";
    if count == 1 {
      r := clause;
    } else {
      var rest := BuildSearchableAttributesFilter(attributes, names, order);
      r := clause + " OR " + rest;
    }
  }

  /** The `" name:"`-style pattern and its replacement with the chunks prefix. */
  function Prefixed(lead: string, escaped: string, names: Names): string
  {
    lead + names.chunks + "." + escaped + ":"
  }

  /**
   * The change one simple property makes to the filter: none when its escaped name
   * does not occur; every `name:` when the filter starts with exactly that field;
   * otherwise only ` name:` and `(name:`.
   */
  function ContextStep(acc: string, filter: string, property: string, names: Names): string
  {
    var escaped := Escaped(property, names);
    if !Contains(filter, escaped) then acc
    else if escaped <= filter && |BeforeColon(filter)| == |escaped| then
      ReplaceAll(acc, escaped + ":", names.chunks + "." + escaped + ":")
    else
      ReplaceAll(ReplaceAll(acc, " " + escaped + ":", Prefixed(" ", escaped, names)), "(" + escaped + ":", Prefixed("(", escaped, names))
  }

  /** The filter after the steps for each property in turn; the conditions are read on the original filter. */
  function ContextSteps(filter: string, properties: seq<string>, names: Names): string
  {
    if properties == [] then filter
    else ContextStep(ContextSteps(filter, properties[..|properties| - 1], names), filter, properties[|properties| - 1], names)
  }

  /**
   * `contextualise_user_filter(filter, properties)`: no filter gives the empty string, and a
   * filter in which no property's escaped name occurs comes back unchanged.
   */
  function Contextualised(filter: Option<string>, properties: seq<string>, names: Names): (r: string)
    ensures filter.None? ==> r == ""
    ensures filter.Some? && (forall p :: p in properties ==> !Contains(filter.value, Escaped(p, names))) ==> r == filter.value
  {
    if filter.None? then ""
    else if forall p :: p in properties ==> !Contains(filter.value, Escaped(p, names)) then
      AbsentPropertiesUnchanged(filter.value, properties, names);
      ContextSteps(filter.value, properties, names)
    else ContextSteps(filter.value, properties, names)
  }

  /** A property whose escaped name does not occur in the filter leaves it unchanged. */
  lemma {:induction false} AbsentPropertiesUnchanged(filter: string, properties: seq<string>, names: Names)
    requires forall p :: p in properties ==> !Contains(filter, Escaped(p, names))
    ensures ContextSteps(filter, properties, names) == filter
  {
    if properties != [] {
      AbsentPropertiesUnchanged(filter, properties[..|properties| - 1], names);
    }
  }

  /** Names without special characters are their own escapes, as written and as intended. */
  lemma {:induction false} PlainNameUnescaped(s: string, names: Names)
    requires forall i :: 0 <= i < |s| ==> s[i] !in names.specials && s[i] != '\\'
    ensures Escaped(s, names) == s
    ensures Sanitised(s, names) == s
  {
    if s != [] {
      PlainNameUnescaped(s[1..], names);
      assert s == [s[0]] + s[1..];
    }
  }

  /**
   * A property whose name occurs in the filter, but neither as the filter's first field
   * nor after a space or an opening parenthesis, leaves the filter as it is.
   */
  lemma StepUnchanged(filter: string, property: string, names: Names)
    requires var e := Escaped(property, names);
      && !(e <= filter && |BeforeColon(filter)| == |e|)
      && !Contains(filter, " " + e + ":") && !Contains(filter, "(" + e + ":")
    ensures ContextStep(filter, filter, property, names) == filter
  {
    var e := Escaped(property, names);
    ReplaceAllAbsent(filter, " " + e + ":", Prefixed(" ", e, names));
    ReplaceAllAbsent(filter, "(" + e + ":", Prefixed("(", e, names));
  }

  /**
   * The guard of the first case says exactly that the filter's first field is the
   * escaped name; a field that merely starts with it ("z_z_z:foo" for "z") fails it.
   */
  lemma FirstFieldGuard(filter: string, e: string)
    ensures (e <= filter && |BeforeColon(filter)| == |e|) <==> BeforeColon(filter) == e
  {
    var b := BeforeColon(filter);
    if e <= filter && |b| == |e| {
      assert b == filter[..|b|] && e == filter[..|e|];
    }
  }

  /**
   * A property whose escaped name is the filter's first field is moved under the chunks
   * field: the contextualised filter starts with `<chunks>.<name>:`.
   */
  lemma FirstFieldPrefixed(filter: string, property: string, names: Names)
    requires BeforeColon(filter) == Escaped(property, names) && |BeforeColon(filter)| < |filter|
    ensures Prefixed("", Escaped(property, names), names) <= Contextualised(Some(filter), [property], names)
  {
    var e := Escaped(property, names);
    var pat := e + ":";
    assert pat <= filter by {
      assert filter[..|pat|] == pat;
    }
    FirstFieldStep(filter, property, names);
    ReplacedPrefix(filter, pat, Prefixed("", e, names));
    ContextualisedOne(filter, property, names);
  }

  /** The first case of the step replaces every `name:`. */
  lemma FirstFieldStep(filter: string, property: string, names: Names)
    requires var e := Escaped(property, names); e <= filter && |BeforeColon(filter)| == |e|
    ensures var e := Escaped(property, names);
      ContextStep(filter, filter, property, names) == ReplaceAll(filter, e + ":", Prefixed("", e, names))
  {
    var e := Escaped(property, names);
    assert Contains(filter, e);
    assert Prefixed("", e, names) == names.chunks + "." + e + ":";
  }

  /** A string that starts with the pattern starts with the replacement afterwards. */
  lemma ReplacedPrefix(s: string, pat: string, rep: string)
    requires |pat| > 0 && pat <= s
    ensures rep <= ReplaceAll(s, pat, rep)
  {
    assert s[..|pat|] == pat;
  }

  /** With one property, the contextualised filter is that property's step. */
  lemma ContextualisedOne(filter: string, property: string, names: Names)
    ensures Contextualised(Some(filter), [property], names) == ContextStep(filter, filter, property, names)
  {
    assert [property][..0] == [];
    assert ContextSteps(filter, [property], names) == ContextStep(filter, filter, property, names);
  }

  /** A string that contains `t` is at least as long. */
  lemma {:induction false} ContainsLength(s: string, t: string)
    requires Contains(s, t)
    ensures |t| <= |s|
    decreases |s|
  {
    if !(t <= s) {
      ContainsLength(s[1..], t);
    }
  }

  /** A string found at position `i` is contained. */
  lemma {:induction false} ContainsAt(s: string, y: string, i: nat)
    requires i <= |s| && y <= s[i..]
    ensures Contains(s, y)
    decreases i
  {
    if i == 0 {
      assert s[i..] == s;
    } else {
      assert s[1..][i - 1..] == s[i..];
      ContainsAt(s[1..], y, i - 1);
    }
  }

  /** Every part of a contained string is contained. */
  lemma {:induction false} ContainsPart(s: string, x: string, i: nat, j: nat)
    requires Contains(s, x) && i <= j <= |x|
    ensures Contains(s, x[i..j])
    decreases |s|
  {
    if x <= s {
      assert x[i..j] <= s[i..];
      ContainsAt(s, x[i..j], i);
    } else {
      ContainsPart(s[1..], x, i, j);
    }
  }

  /** A string found in `t` is found in `a + t`. */
  lemma {:induction false} ContainsAfter(a: string, t: string, x: string)
    requires Contains(t, x)
    ensures Contains(a + t, x)
    decreases |a|
  {
    if a == [] {
      assert a + t == t;
    } else {
      ContainsAfter(a[1..], t, x);
      assert (a + t)[1..] == a[1..] + t;
    }
  }

  /** Replacing a pattern that occurs leaves its replacement in the string. */
  lemma {:induction false} ReplaceAllLeavesRep(s: string, pat: string, rep: string)
    requires |pat| > 0 && Contains(s, pat)
    ensures Contains(ReplaceAll(s, pat, rep), rep)
    decreases |s|
  {
    ContainsLength(s, pat);
    if s[..|pat|] == pat {
      assert rep <= rep + ReplaceAll(s[|pat|..], pat, rep);
    } else {
      assert !(pat <= s);
      ReplaceAllLeavesRep(s[1..], pat, rep);
      ContainsAfter([s[0]], ReplaceAll(s[1..], pat, rep), rep);
    }
  }

  /** A prefix in which the pattern cannot start stays a prefix after the replacement. */
  lemma {:induction false} ReplaceAllKeepsPrefix(t: string, pat: string, rep: string, x: string)
    requires |pat| > 0 && x <= t && pat[0] !in x
    ensures x <= ReplaceAll(t, pat, rep)
    decreases |t|
  {
    if x != [] && |t| >= |pat| {
      assert t[0] == x[0] && x[0] in x;
      assert t[..|pat|][0] == t[0];
      assert x == [x[0]] + x[1..];
      ReplaceAllKeepsPrefix(t[1..], pat, rep, x[1..]);
    }
  }

  /** After a match of `pat`, an occurrence of `x` cannot start inside it when `x[0]` is not in `pat`. */
  lemma {:induction false} ContainsPastPrefix(s: string, pat: string, x: string, m: nat)
    requires pat <= s && x != [] && x[0] !in pat && m <= |pat| && Contains(s, x)
    ensures Contains(s[m..], x)
    decreases m
  {
    if m == 0 {
      assert s[m..] == s;
    } else {
      ContainsPastPrefix(s, pat, x, m - 1);
      assert s[m - 1..][0] == pat[m - 1];
      assert s[m - 1..][1..] == s[m..];
    }
  }

  /**
   * An occurrence of `x` survives replacing `pat` when no occurrence of `pat` can overlap
   * it: `pat` cannot start inside `x`, and `x` cannot start inside `pat`.
   */
  lemma {:induction false} ReplaceAllKeeps(s: string, pat: string, rep: string, x: string)
    requires |pat| > 0 && Contains(s, x)
    requires pat[0] !in x && (x != [] ==> x[0] !in pat[1..])
    ensures Contains(ReplaceAll(s, pat, rep), x)
    decreases |s|
  {
    if x == [] {
      assert x <= ReplaceAll(s, pat, rep);
    } else if |s| < |pat| {
    } else if s[..|pat|] == pat {
      assert s[0] == pat[0] && x[0] in x;
      assert pat == [pat[0]] + pat[1..];
      ContainsPastPrefix(s, pat, x, |pat|);
      ReplaceAllKeeps(s[|pat|..], pat, rep, x);
      ContainsAfter(rep, ReplaceAll(s[|pat|..], pat, rep), x);
    } else if x <= s {
      assert x == [x[0]] + x[1..];
      ReplaceAllKeepsPrefix(s[1..], pat, rep, x[1..]);
      assert x <= [s[0]] + ReplaceAll(s[1..], pat, rep);
    } else {
      ReplaceAllKeeps(s[1..], pat, rep, x);
      ContainsAfter([s[0]], ReplaceAll(s[1..], pat, rep), x);
    }
  }

  /**
   * A property whose escaped name is not the filter's first field is moved under the chunks
   * field where it follows a space or an opening parenthesis: ` name:` and `(name:` become
   * ` <chunks>.name:` and `(<chunks>.name:`. Stated for names without spaces or parentheses
   * and a chunks name without a parenthesis, so that the two replacements cannot overlap.
   */
  lemma InnerFieldPrefixed(filter: string, property: string, names: Names)
    requires var e := Escaped(property, names);
      && !(e <= filter && |BeforeColon(filter)| == |e|)
      && ' ' !in e && '(' !in e && '(' !in names.chunks
    ensures var e := Escaped(property, names);
      Contains(filter, " " + e + ":") ==> Contains(ContextStep(filter, filter, property, names), Prefixed(" ", e, names))
    ensures var e := Escaped(property, names);
      Contains(filter, "(" + e + ":") ==> Contains(ContextStep(filter, filter, property, names), Prefixed("(", e, names))
  {
    var e := Escaped(property, names);
    var space, paren := " " + e + ":", "(" + e + ":";
    var mid := ReplaceAll(filter, space, Prefixed(" ", e, names));
    if Contains(filter, space) {
      ContainsPart(filter, space, 1, |e| + 1);
      assert space[1..|e| + 1] == e;
      ReplaceAllLeavesRep(filter, space, Prefixed(" ", e, names));
      assert paren[1..] == e + ":";
      ReplaceAllKeeps(mid, paren, Prefixed("(", e, names), Prefixed(" ", e, names));
    }
    if Contains(filter, paren) {
      ContainsPart(filter, paren, 1, |e| + 1);
      assert paren[1..|e| + 1] == e;
      assert space[1..] == e + ":";
      ReplaceAllKeeps(filter, space, Prefixed(" ", e, names), paren);
      ReplaceAllLeavesRep(mid, paren, Prefixed("(", e, names));
    }
  }

  /** `(attributes filter) AND (user filter)` when both are non-empty, else whichever is not. */
  function Combined(attributesFilter: string, userFilter: string): (r: string)
    ensures attributesFilter == "" ==> r == userFilter
    ensures userFilter == "" ==> r == attributesFilter
    ensures attributesFilter != "" && userFilter != "" ==>
      && |r| == |attributesFilter| + |userFilter| + 9
      && r[0] == '(' && r[|r| - 1] == ')'
      && r[1..|attributesFilter| + 1] == attributesFilter
      && r[|r| - 1 - |userFilter|..|r| - 1] == userFilter
  {
    if userFilter != "" && attributesFilter != "" then "(" + attributesFilter + ") AND (" + userFilter + ")"
    else attributesFilter + userFilter
  }

  /** `build_tensor_search_filter`. */
  function TensorSearchFilter(filter: Option<string>, properties: seq<string>, attributes: Option<seq<string>>, names: Names): string
  {
    Combined(if attributes.Some? then AttributesFilter(attributes.value, names) else "", Contextualised(filter, properties, names))
  }

  /**
   * `build_tensor_search_filter`: builds the attributes filter from a deep copy, so the
   * caller's list keeps its attributes.
   */
  method BuildTensorSearchFilter(filter: Option<string>, properties: seq<string>, attributes: Option<AttributeList>,
                                 names: Names, order: seq<char>) returns (r: string)
    requires Enumerates(order, names.specials - {'\\'})
    ensures r == TensorSearchFilter(filter, properties, if attributes.Some? then Some(attributes.value.items) else None, names)
    ensures attributes.Some? ==> attributes.value.items == old(attributes.value.items)
  {
    var attributesFilter := "";
    if attributes.Some? {
      var copied := new AttributeList(attributes.value.items);
      attributesFilter := BuildSearchableAttributesFilter(copied, names, order);
    }
    var userFilter := ContextualiseUserFilter(filter, properties, names, order);
    if userFilter != "" && attributesFilter != "" {
      r := "(" + attributesFilter + ") AND (" + userFilter + ")";
    } else {
      r := attributesFilter + userFilter;
    }
  }

  /** `contextualise_user_filter`: a loop over the properties rewriting an accumulator. */
  method ContextualiseUserFilter(filter: Option<string>, properties: seq<string>, names: Names, order: seq<char>) returns (r: string)
    requires Enumerates(order, names.specials - {'\\'})
    ensures r == Contextualised(filter, properties, names)
  {
    if filter.None? {
      return "";
    }
    var f := filter.value;
    r := f;
    var i := 0;
    while i < |properties|
      invariant 0 <= i <= |properties|
      invariant r == ContextSteps(f, properties[..i], names)
    {
      assert properties[..i + 1][..i] == properties[..i];
      var escaped := SanitiseAsWritten(properties[i], names, order);
      if Contains(f, escaped) {
        if escaped <= f && |BeforeColon(f)| == |escaped| {
          r := ReplaceAll(r, escaped + ":", names.chunks + "." + escaped + ":");
        } else {
          r := ReplaceAll(r, " " + escaped + ":", Prefixed(" ", escaped, names));
          r := ReplaceAll(r, "(" + escaped + ":", Prefixed("(", escaped, names));
        }
      }
      i := i + 1;
    }
    assert properties[..i] == properties;
  }
}
