/** Property lookup and compatible-string matching of lib/fdt.c, and what they mean
    on the tree. */
module FdtProps {
  import opened Words
  import opened Fdt
  import opened FdtTree

  /** A C string argument: no NUL inside, one understood at the end. */
  type Name = s: seq<byte> | forall i :: 0 <= i < |s| ==> s[i] != 0

  function ByteAt(f: Fdt, p: nat): byte { if p < |f.b| then f.b[p] else 0 }

  /** The NUL-terminated string at p is `name`. */
  ghost predicate StringIs(f: Fdt, p: nat, name: Name) {
    ByteAt(f, p + |name|) == 0 && forall i :: 0 <= i < |name| ==> ByteAt(f, p + i) == name[i]
  }

  /** str_eq: advance while the bytes agree and are not NUL. */
  method StrEq(f: Fdt, p: nat, name: Name) returns (eq: bool)
    ensures eq == StringIs(f, p, name)
  {
    var i := 0;
    while i < |name| && ByteAt(f, p + i) != 0 && ByteAt(f, p + i) == name[i]
      invariant 0 <= i <= |name|
      invariant forall k :: 0 <= k < i ==> ByteAt(f, p + k) == name[k]
    {
      i := i + 1;
    }
    eq := ByteAt(f, p + i) == if i < |name| then name[i] else 0;
  }

  // ---------------------------------------------------------------- fdt_getprop

  ghost predicate Named(f: Fdt, p: nat, name: Name) { StringIs(f, f.str + Be32(f.b, p + 8), name) }

  /** The token offset of the first property of that name, scanning from p. */
  ghost function PropFrom(f: Fdt, p: nat, name: Name): Option<nat>
    requires f.Valid()
    decreases f.send - p
  {
    if !Ok(f, p, 4) then None
    else if Token(f, p) == NOP then PropFrom(f, p + 4, name)
    else if Token(f, p) != PROP || !Ok(f, p, 8) || !Ok(f, p + 12, Be32(f.b, p + 4)) then None
    else if Be32(f.b, p + 8) >= f.strend - f.str then None
    else if Named(f, p, name) then Some(p)
    else PropFrom(f, p + 12 + Align4(Be32(f.b, p + 4)), name)
  }

  ghost function PropOf(f: Fdt, off: nat, name: Name): Option<nat>
    requires f.Valid()
  {
    match AfterName(f, off)
    case Some(p) => PropFrom(f, p, name)
    case None => None
  }

  method GetProp(f: Fdt, off: nat, name: Name) returns (r: Option<nat>)
    requires f.Valid()
    ensures r == PropOf(f, off, name)
  {
    var start := AfterName(f, off);
    if start.None? {
      return None;
    }
    var p := start.value;
    while true
      invariant PropFrom(f, p, name) == PropFrom(f, start.value, name)
      decreases f.send - p
    {
      if !Ok(f, p, 4) {
        return None;
      }
      var token := Token(f, p);
      if token == NOP {
        p := p + 4;
      } else {
        var len, nameOff := Be32(f.b, p + 4), Be32(f.b, p + 8);
        if token != PROP || !Ok(f, p, 8) || !Ok(f, p + 12, len) || nameOff >= f.strend - f.str {
          return None;
        }
        var eq := StrEq(f, f.str + nameOff, name);
        if eq {
          return Some(p);
        }
        p := p + 12 + Align4(len);
      }
    }
  }

  /** The node's own first property of that name. */
  ghost function FirstProp(f: Fdt, l: Items, name: Name): Option<nat>
    decreases l
  {
    match l
    case Done => None
    case Nop(r) => FirstProp(f, r, name)
    case Property(pos, r) => if Named(f, pos, name) then Some(pos) else FirstProp(f, r, name)
    case Child(_, _) => None
  }

  lemma {:induction false} PropOfItems(f: Fdt, p: nat, l: Items, end: nat, early: bool, name: Name)
    requires f.Valid() && IsItems(f, p, l, end, early)
    ensures PropFrom(f, p, name) == FirstProp(f, l, name)
    decreases l
  {
    match l
    case Done =>
    case Nop(r) => PropOfItems(f, p + 4, r, end, early, name);
    case Property(_, r) => PropOfItems(f, AfterProp(f, p).value, r, end, true, name);
    case Child(t, r) =>
  }

  /** fdt_getprop finds a node's own property, never one of a child's. */
  lemma GetPropIsFirst(f: Fdt, t: Node, name: Name)
    requires f.Valid() && IsNode(f, t)
    ensures PropOf(f, t.off, name) == FirstProp(f, t.items, name)
  {
    PropOfItems(f, AfterName(f, t.off).value, t.items, t.end, true, name);
  }

  lemma {:induction false} FirstPropFits(f: Fdt, p: nat, l: Items, end: nat, early: bool, name: Name)
    requires f.Valid() && IsItems(f, p, l, end, early)
    ensures var r := FirstProp(f, l, name); r.Some? ==> r.value + 12 + Be32(f.b, r.value + 4) <= |f.b|
    decreases l
  {
    match l
    case Done =>
    case Nop(r) => FirstPropFits(f, p + 4, r, end, early, name);
    case Property(_, r) => FirstPropFits(f, AfterProp(f, p).value, r, end, true, name);
    case Child(t, r) =>
  }

  // ---------------------------------------------------------------- compatible lists

  /** The bytes of the property at token offset p. */
  function Value(f: Fdt, p: nat): seq<byte> {
    var len := Be32(f.b, p + 4);
    if p + 12 + len <= |f.b| then f.b[p + 12..p + 12 + len] else []
  }

  /** A NUL-separated list has `want` as one of its terminated entries. */
  ghost predicate Lists(v: seq<byte>, want: Name) { exists k :: EntryAt(v, k, want) }

  ghost predicate EntryAt(v: seq<byte>, k: nat, want: Name) {
    && k + |want| < |v| && (k == 0 || v[k - 1] == 0)
    && v[k..k + |want|] == want && v[k + |want|] == 0
  }

  function EntryEnd(v: seq<byte>, i: nat): (e: nat)
    requires i <= |v|
    ensures i <= e <= |v| && (e < |v| ==> v[e] == 0) && forall k :: i <= k < e ==> v[k] != 0
    decreases |v| - i
  {
    if i == |v| || v[i] == 0 then i else EntryEnd(v, i + 1)
  }

  ghost predicate MatchFrom(v: seq<byte>, want: Name, i: nat)
    decreases |v| - i
  {
    if i >= |v| then false
    else
      var e := EntryEnd(v, i);
      (e < |v| && v[i..e] == want) || MatchFrom(v, want, e + 1)
  }

  /** Every entry is looked at, the first one and the later ones. */
  lemma {:induction false} MatchIsListed(v: seq<byte>, want: Name, i: nat)
    requires i == 0 || (i <= |v| && v[i - 1] == 0) || i == |v| + 1
    ensures MatchFrom(v, want, i) <==> exists k :: i <= k && EntryAt(v, k, want)
    decreases |v| + 1 - i
  {
    if i < |v| {
      var e := EntryEnd(v, i);
      MatchIsListed(v, want, e + 1);
      if e < |v| && v[i..e] == want {
        assert EntryAt(v, i, want);
      }
      forall k | i <= k <= e && EntryAt(v, k, want)
        ensures e < |v| && v[i..e] == want
      {
        assert k == i;
        assert v[i..i + |want|] == want;
        assert forall j :: i <= j < i + |want| ==> v[j] == v[i..i + |want|][j - i];
      }
    }
  }

  method CompatibleMatch(v: seq<byte>, want: Name) returns (found: bool)
    ensures found <==> Lists(v, want)
  {
    MatchIsListed(v, want, 0);
    var i := 0;
    while i < |v|
      invariant MatchFrom(v, want, i) == MatchFrom(v, want, 0)
    {
      var j := 0;
      while i + j < |v| && v[i + j] != 0
        invariant i + j <= |v| && EntryEnd(v, i) == EntryEnd(v, i + j)
      {
        j := j + 1;
      }
      if i + j < |v| && v[i..i + j] == want {
        return true;
      }
      i := i + j + 1;
    }
    return false;
  }

  const COMPATIBLE: Name := [99, 111, 109, 112, 97, 116, 105, 98, 108, 101]

  /** The node's own compatible list contains the string. */
  ghost predicate HasCompatible(f: Fdt, t: Node, want: Name) {
    var p := FirstProp(f, t.items, COMPATIBLE);
    p.Some? && Lists(Value(f, p.value), want)
  }
}
