/** Model-name interning and the in-memory plan of each model. */
module Planner {
  import opened BatchTypes
  import opened PlanFile

  // ---- safe file names ----

  /** Letters, digits, dot, underscore and dash; so no blank and no separator of a path. */
  predicate IsSafe(c: char): (safe: bool)
    ensures safe ==> '-' <= c <= 'z' && c !in "/:;<=>?@[\\]^`"
    ensures !safe ==> c !in "-._09azAZ"
  {
    'a' <= c <= 'z' || 'A' <= c <= 'Z' || '0' <= c <= '9' || c == '.' || c == '_' || c == '-'
  }

  function SkipUnsafe(s: string): (r: string)
    ensures |r| <= |s| && (|s| > 0 && !IsSafe(s[0]) ==> |r| < |s|)
    ensures |r| > 0 ==> IsSafe(r[0])
  {
    if |s| == 0 || IsSafe(s[0]) then s else SkipUnsafe(s[1..])
  }

  /** Every maximal run of unsafe characters becomes one underscore. */
  function Sanitize(s: string): (r: string)
    ensures forall i :: 0 <= i < |r| ==> IsSafe(r[i])
    ensures r == "" <==> s == ""
    decreases |s|
  {
    if s == "" then ""
    else if IsSafe(s[0]) then [s[0]] + Sanitize(s[1..])
    else "_" + Sanitize(SkipUnsafe(s))
  }

  lemma {:induction false} SafeKept(s: string, t: string)
    requires forall i :: 0 <= i < |s| ==> IsSafe(s[i])
    ensures Sanitize(s + t) == s + Sanitize(t)
  {
    if s == "" {
      assert s + t == t;
    } else {
      SafeKept(s[1..], t);
      assert (s + t)[1..] == s[1..] + t;
    }
  }

  lemma {:induction false} UnsafeSkipped(u: string, t: string)
    requires forall i :: 0 <= i < |u| ==> !IsSafe(u[i])
    requires t == "" || IsSafe(t[0])
    ensures SkipUnsafe(u + t) == t
  {
    if u == "" {
      assert u + t == t;
    } else {
      UnsafeSkipped(u[1..], t);
      assert (u + t)[1..] == u[1..] + t;
    }
  }

  /** Safe characters stay, and a whole run of unsafe ones becomes one underscore. */
  lemma {:induction false} SanitizeMeans(s: string, u: string, t: string)
    requires forall i :: 0 <= i < |s| ==> IsSafe(s[i])
    requires forall i :: 0 <= i < |u| ==> !IsSafe(u[i])
    requires t == "" || IsSafe(t[0])
    ensures Sanitize(s) == s
    ensures u != "" ==> Sanitize(s + u + t) == s + "_" + Sanitize(t)
  {
    SafeKept(s, "");
    assert s + "" == s;
    if u != "" {
      SafeKept(s, u + t);
      assert s + u + t == s + (u + t);
      UnsafeSkipped(u, t);
    }
  }

  function Base(model: string): string {
    if Sanitize(model) == "" then "unknown" else Sanitize(model)
  }

  function Decimal(n: nat): (s: string)
    ensures |s| >= 1 && (|s| == 1 <==> n < 10)
  {
    var digit := ((n % 10) as char + '0');
    if n < 10 then [digit] else Decimal(n / 10) + [digit]
  }

  lemma {:induction false} DecimalInjective(a: nat, b: nat)
    requires Decimal(a) == Decimal(b)
    ensures a == b
  {
    var s, t := Decimal(a), Decimal(b);
    assert s[|s| - 1] == (a % 10) as char + '0' && t[|t| - 1] == (b % 10) as char + '0';
    if a >= 10 {
      assert s[..|s| - 1] == Decimal(a / 10) && t[..|t| - 1] == Decimal(b / 10);
      DecimalInjective(a / 10, b / 10);
    }
  }

  function Numbered(base: string, n: nat): string {
    base + "_" + Decimal(n)
  }

  lemma NumberedInjective(base: string, a: nat, b: nat)
    requires Numbered(base, a) == Numbered(base, b)
    ensures a == b
  {
    assert Numbered(base, a)[|base| + 1..] == Decimal(a);
    assert Numbered(base, b)[|base| + 1..] == Decimal(b);
    DecimalInjective(a, b);
  }

  predicate InUse(used: map<string, nat>, base: string, k: nat) {
    Numbered(base, k) in used
  }

  /** The distinct names numbered first + 1 to first + n. */
  function Names(base: string, first: nat, n: nat): set<string> {
    if n == 0 then {} else Names(base, first, n - 1) + {Numbered(base, first + n)}
  }

  lemma {:induction false} NamesAre(base: string, first: nat, n: nat, name: string)
    requires name in Names(base, first, n)
    ensures exists k :: first < k <= first + n && name == Numbered(base, k)
  {
    if name in Names(base, first, n - 1) {
      NamesAre(base, first, n - 1, name);
    }
  }

  lemma {:induction false} NamesDistinct(base: string, first: nat, n: nat)
    ensures |Names(base, first, n)| == n
  {
    if n > 0 {
      NamesDistinct(base, first, n - 1);
      var name := Numbered(base, first + n);
      if name in Names(base, first, n - 1) {
        NamesAre(base, first, n - 1, name);
        var k :| first < k <= first + n - 1 && name == Numbered(base, k);
        NumberedInjective(base, first + n, k);
        assert false;
      }
    }
  }

  lemma {:induction false} NamesUsed(used: map<string, nat>, base: string, first: nat, n: nat)
    requires forall k: nat :: first < k <= first + n ==> InUse(used, base, k)
    ensures Names(base, first, n) <= used.Keys
  {
    if n > 0 {
      NamesUsed(used, base, first, n - 1);
      assert InUse(used, base, first + n);
    }
  }

  lemma {:induction false} SubsetSize<T>(a: set<T>, b: set<T>)
    requires a <= b
    ensures |a| <= |b|
  {
    if a != {} {
      var x :| x in a;
      SubsetSize(a - {x}, b - {x});
    }
  }

  /** The first number past the one recorded for the base that gives an unused name;
      the search ends because the names it tries are distinct and all in use. */
  method NextFree(used: map<string, nat>, base: string) returns (n: nat)
    requires base in used
    ensures n > used[base] && !InUse(used, base, n)
    ensures forall k: nat :: used[base] < k < n ==> InUse(used, base, k)
  {
    n := used[base] + 1;
    while InUse(used, base, n)
      invariant n > used[base] && n - used[base] - 1 <= |used.Keys|
      invariant forall k: nat :: used[base] < k < n ==> InUse(used, base, k)
      decreases |used.Keys| + used[base] - n
    {
      NamesUsed(used, base, used[base], n - used[base]);
      NamesDistinct(base, used[base], n - used[base]);
      SubsetSize(Names(base, used[base], n - used[base]), used.Keys);
      n := n + 1;
    }
  }

  /** The first number past the recorded one whose name is free. */
  ghost predicate FirstFree(used: map<string, nat>, base: string, n: nat)
    requires base in used
  {
    n > used[base] && !InUse(used, base, n) && forall k: nat :: used[base] < k < n ==> InUse(used, base, k)
  }

  /** The sanitized model, or "unknown" for the empty one, numbered if that is taken. */
  ghost predicate NamedAfter(name: string, model: string, used: map<string, nat>) {
    var base := if model == "" then "unknown" else Sanitize(model);
    if base !in used then name == base
    else exists n: nat :: FirstFree(used, base, n) && name == base + "_" + Decimal(n)
  }

  // ---- accumulating ----

  class PlanAccumulator {
    var used: map<string, nat>
    var modelToSafe: map<string, string>
    var entries: map<string, seq<PlanEntry>>

    ghost predicate Valid()
      reads this
    {
      && (forall n :: n in used ==> used[n] >= 1)
      && (forall m :: m in modelToSafe ==> modelToSafe[m] in used && modelToSafe[m] in entries)
      && (forall a, b :: a in modelToSafe && b in modelToSafe && a != b ==> modelToSafe[a] != modelToSafe[b])
      && (forall n :: n in entries ==> n in used)
    }

    /** The accumulated plan of a model. */
    function PlanOf(model: string): seq<PlanEntry>
      reads this
    {
      if model in modelToSafe && modelToSafe[model] in entries then entries[modelToSafe[model]] else []
    }

    constructor ()
      ensures Valid() && modelToSafe == map[] && forall m :: PlanOf(m) == []
    {
      used, modelToSafe, entries := map[], map[], map[];
    }

    /** Terminates with a safe name that was never handed out before, and reserves it: the
        sanitized model, "unknown" if the model is empty, with the next free number
        appended if that name was handed out before. */
    method InternModelID(model: string) returns (name: string)
      requires forall n :: n in used ==> used[n] >= 1
      modifies `used
      ensures name !in old(used) && used.Keys == old(used.Keys) + {name}
      ensures forall n :: n in used ==> used[n] >= 1
      ensures forall i :: 0 <= i < |name| ==> IsSafe(name[i])
      ensures NamedAfter(name, model, old(used))
    {
      var base := Base(model);
      if base !in used {
        used := used[base := 1];
        return base;
      }
      var n := NextFree(used, base);
      assert FirstFree(used, base, n);
      name := Numbered(base, n);
      SafeNumber(base, n);
      used := used[base := n][name := 1];
    }

    method AccumulatePlanEntry(model: string, offset: int64, length: uint32, prefixHash: uint32)
      requires Valid()
      modifies this
      ensures Valid() && modelToSafe.Keys == old(modelToSafe.Keys) + {model}
      ensures forall m :: m in old(modelToSafe) ==> modelToSafe[m] == old(modelToSafe)[m]
      ensures PlanOf(model) == old(PlanOf(model)) + [PlanEntry(offset, length, prefixHash)]
      ensures forall m :: m != model ==> PlanOf(m) == old(PlanOf(m))
    {
      var entry := PlanEntry(offset, length, prefixHash);
      if model !in modelToSafe {
        var name := InternModelID(model);
        modelToSafe := modelToSafe[model := name];
        entries := entries[name := [entry]];
      } else {
        var name := modelToSafe[model];
        entries := entries[name := entries[name] + [entry]];
      }
    }

    /** The two model maps are inverse bijections. */
    method WriteModelMappings() returns (safeToModel: map<string, string>)
      requires Valid()
      ensures forall m :: m in modelToSafe ==> modelToSafe[m] in safeToModel && safeToModel[modelToSafe[m]] == m
      ensures forall n :: n in safeToModel ==> safeToModel[n] in modelToSafe && modelToSafe[safeToModel[n]] == n
    {
      safeToModel := map[];
      var models := modelToSafe.Keys;
      while models != {}
        invariant models <= modelToSafe.Keys
        invariant forall m :: m in modelToSafe && m !in models ==>
                    modelToSafe[m] in safeToModel && safeToModel[modelToSafe[m]] == m
        invariant forall n :: n in safeToModel ==>
                    safeToModel[n] in modelToSafe && safeToModel[n] !in models && modelToSafe[safeToModel[n]] == n
        decreases |models|
      {
        var m :| m in models;
        safeToModel := safeToModel[modelToSafe[m] := m];
        models := models - {m};
      }
    }
  }

  lemma {:induction false} SafeNumber(base: string, n: nat)
    requires forall i :: 0 <= i < |base| ==> IsSafe(base[i])
    ensures forall i :: 0 <= i < |Numbered(base, n)| ==> IsSafe(Numbered(base, n)[i])
  {
    SafeDigits(n);
  }

  lemma {:induction false} SafeDigits(n: nat)
    ensures forall i :: 0 <= i < |Decimal(n)| ==> IsSafe(Decimal(n)[i])
  {
    if n >= 10 {
      SafeDigits(n / 10);
    }
  }
}
