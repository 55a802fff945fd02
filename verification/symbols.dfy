/** The symbol intern table of public/scripts/nconc.js: `_stringToSymbol`, `_intern`.
    A symbol object's identity is modelled by its `id`; the table is the process-wide map from
    lower-cased names to the symbol first interned under that name. */
module Symbols {

  /** ASCII case folding: the part of `String.prototype.toLowerCase` the model covers. */
  function LowerChar(c: char): char {
    if 'A' <= c <= 'Z' then (c as int + 32) as char else c
  }

  function Lower(s: string): string {
    seq(|s|, i requires 0 <= i < |s| => LowerChar(s[i]))
  }

  predicate HasNoUpper(s: string) {
    forall i :: 0 <= i < |s| ==> !('A' <= s[i] <= 'Z')
  }

  /** Folding leaves no upper-case letter behind, changes nothing else, and is idempotent. */
  lemma LowerIsLowerCase(s: string)
    ensures HasNoUpper(Lower(s))
    ensures |Lower(s)| == |s|
    ensures forall i :: 0 <= i < |s| && !('A' <= s[i] <= 'Z') ==> Lower(s)[i] == s[i]
    ensures Lower(Lower(s)) == Lower(s)
  {
  }

  datatype Symbol = Symbol(id: nat, name: string)

  /** `entries` is `_symbols`; `next` is the identity the next fresh symbol object gets. */
  datatype Table = Table(entries: map<string, Symbol>, next: nat)

  /** Every entry is filed under its own name, was allocated before `next`, and no two
      entries share an identity. */
  predicate TableOk(t: Table) {
    && (forall n :: n in t.entries ==> t.entries[n].name == n && t.entries[n].id < t.next)
    && (forall a, b :: a in t.entries && b in t.entries && a != b ==> t.entries[a].id != t.entries[b].id)
  }

  /** `t1` keeps every entry of `t0` unchanged. */
  predicate Extends(t1: Table, t0: Table) {
    forall n :: n in t0.entries ==> n in t1.entries && t1.entries[n] == t0.entries[n]
  }

  function EmptyTable(): (t: Table)
    ensures TableOk(t)
  {
    Table(map[], 0)
  }

  /** `_intern`: the symbol already filed under the name, or a fresh symbol filed under it. */
  function Intern(t: Table, name: string): (res: (Table, Symbol))
    requires TableOk(t)
    ensures TableOk(res.0)
    ensures Extends(res.0, t)
    ensures res.1.name == name
    ensures name in res.0.entries && res.0.entries[name] == res.1
    ensures res.0.entries.Keys == t.entries.Keys + {name}
    ensures name in t.entries ==> res.0 == t && res.1 == t.entries[name]
    ensures name !in t.entries ==> res.1.id == t.next && res.0.next == t.next + 1
  {
    if name in t.entries then (t, t.entries[name])
    else
      var sym := Symbol(t.next, name);
      (Table(t.entries[name := sym], t.next + 1), sym)
  }

  /** `_stringToSymbol`: interns the lower-cased string. */
  function StringToSymbol(t: Table, s: string): (res: (Table, Symbol))
    requires TableOk(t)
    ensures TableOk(res.0)
    ensures Extends(res.0, t)
    ensures HasNoUpper(res.1.name)
    ensures res.1.name == Lower(s)
    ensures Lower(s) in res.0.entries && res.0.entries[Lower(s)] == res.1
  {
    LowerIsLowerCase(s);
    Intern(t, Lower(s))
  }

  /** Two interned strings give the identical symbol object exactly when they agree up to case,
      however the table looked before. */
  lemma {:induction false} IdenticalIffSameLowerCase(t: Table, s: string, u: string)
    requires TableOk(t)
    ensures var (t1, a) := StringToSymbol(t, s);
            var (t2, b) := StringToSymbol(t1, u);
            a.id == b.id <==> Lower(s) == Lower(u)
  {
    var (t1, a) := StringToSymbol(t, s);
    var (t2, b) := StringToSymbol(t1, u);
    if Lower(s) != Lower(u) {
      assert Lower(s) in t2.entries && t2.entries[Lower(s)] == a;
      assert Lower(u) in t2.entries && t2.entries[Lower(u)] == b;
    }
  }

  /** Interns a sequence of strings in order, as the reader does with every symbol it meets. */
  function InternAll(t: Table, ss: seq<string>): (res: (Table, seq<Symbol>))
    requires TableOk(t)
    decreases |ss|
    ensures TableOk(res.0)
    ensures Extends(res.0, t)
    ensures |res.1| == |ss|
    ensures forall i :: 0 <= i < |ss| ==> Lower(ss[i]) in res.0.entries && res.0.entries[Lower(ss[i])] == res.1[i]
  {
    if |ss| == 0 then (t, [])
    else
      var (t1, sym) := StringToSymbol(t, ss[0]);
      var (t2, rest) := InternAll(t1, ss[1..]);
      (t2, [sym] + rest)
  }

  /** Process-wide interning: across any sequence of reads, two symbols are identical exactly
      when their names agree up to case. */
  lemma {:induction false} InternAllIdentity(t: Table, ss: seq<string>, i: nat, j: nat)
    requires TableOk(t)
    requires i < |ss| && j < |ss|
    ensures var syms := InternAll(t, ss).1;
            syms[i].id == syms[j].id <==> Lower(ss[i]) == Lower(ss[j])
  {
    var (t2, syms) := InternAll(t, ss);
    assert t2.entries[Lower(ss[i])] == syms[i];
    assert t2.entries[Lower(ss[j])] == syms[j];
  }
}
