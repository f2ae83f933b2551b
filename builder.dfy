// The interning profile builder of internal/profile/profile.go: a string
// table, a function table and a location table, each with an index map from
// key to slot. The read-lock/write-lock double check of the source collapses
// to one lookup in this sequential model.

module ProfileBuilder {
  import opened Options
  import opened ProfileModel

  /** The string at `idx`, or "" when `idx` is not a slot of `st`. */
  function StringAt(st: seq<string>, idx: int): (s: string)
    ensures 0 <= idx < |st| ==> s == st[idx]
  {
    if 0 <= idx < |st| then st[idx] else ""
  }

  /** The key a function was interned under, read back through the string table. */
  ghost function FunctionKey(p: Profile, fn: Function): string
  {
    FrameKey(StringAt(p.stringTable, fn.name), StringAt(p.stringTable, fn.filename))
  }

  /** The key of a location: that of the function on its first line ("" if it has none). */
  ghost function LocKey(p: Profile, loc: Location): string
  {
    if |loc.line| > 0 && 1 <= loc.line[0].functionId <= |p.functions|
    then FunctionKey(p, p.functions[loc.line[0].functionId - 1])
    else ""
  }

  /** The key of location id `id` ("" for an id that names no location). */
  ghost function LocationKey(p: Profile, id: nat): string
  {
    if 1 <= id <= |p.locations| then LocKey(p, p.locations[id - 1]) else ""
  }

  /** The (type, unit) strings a value type names. */
  function ValueTypeNames(p: Profile, vt: ValueType): (string, string)
  {
    (StringAt(p.stringTable, vt.typ), StringAt(p.stringTable, vt.unit))
  }

  // ---------------------------------------------------------------------
  // The builder's invariant, on values. Each per-element condition is a
  // named predicate, so that its quantifier fires only where a proof names
  // the element.

  /** An interned string `s` sits in the slot the index gives it. */
  ghost predicate StringSlot(st: seq<string>, si: map<string, nat>, s: string)
  {
    s in si ==> si[s] < |st| && st[si[s]] == s
  }

  /** Slot `i` of the table is indexed under its own string. */
  ghost predicate SlotIndexed(st: seq<string>, si: map<string, nat>, i: int)
  {
    0 <= i < |st| ==> st[i] in si && si[st[i]] == i
  }

  /** `si` is exactly the inverse of the string table, whose slot 0 is "". */
  ghost predicate StringsInterned(st: seq<string>, si: map<string, nat>)
  {
    && |st| >= 1 && st[0] == ""
    && (forall s :: StringSlot(st, si, s))
    && (forall i :: SlotIndexed(st, si, i))
  }

  /** An index entry for key `k` names a function with that key. */
  ghost predicate FunctionEntry(p: Profile, fi: map<string, nat>, k: string)
  {
    k in fi ==> 1 <= fi[k] <= |p.functions| && FunctionKey(p, p.functions[fi[k] - 1]) == k
  }

  /** Function `i` has SystemName == Name and is indexed under its own key. */
  ghost predicate FunctionIndexed(p: Profile, fi: map<string, nat>, i: int)
  {
    0 <= i < |p.functions| ==>
      && p.functions[i].systemName == p.functions[i].name
      && FunctionKey(p, p.functions[i]) in fi && fi[FunctionKey(p, p.functions[i])] == i + 1
  }

  ghost predicate FunctionsInterned(p: Profile, fi: map<string, nat>)
  {
    (forall k :: FunctionEntry(p, fi, k)) && (forall i :: FunctionIndexed(p, fi, i))
  }

  /** An index entry for key `k` names a location with that key. */
  ghost predicate LocationEntry(p: Profile, li: map<string, nat>, k: string)
  {
    k in li ==> 1 <= li[k] <= |p.locations| && LocKey(p, p.locations[li[k] - 1]) == k
  }

  /** Location `i` has one line, numbered 0, and is indexed under its key. */
  ghost predicate LocationIndexed(p: Profile, li: map<string, nat>, i: int)
  {
    0 <= i < |p.locations| ==>
      && |p.locations[i].line| == 1 && p.locations[i].line[0].line == 0
      && LocKey(p, p.locations[i]) in li && li[LocKey(p, p.locations[i])] == i + 1
  }

  ghost predicate LocationsInterned(p: Profile, li: map<string, nat>)
  {
    (forall k :: LocationEntry(p, li, k)) && (forall i :: LocationIndexed(p, li, i))
  }

  ghost predicate Interned(p: Profile, si: map<string, nat>, fi: map<string, nat>, li: map<string, nat>)
  {
    && WellFormed(p)
    && StringsInterned(p.stringTable, si)
    && FunctionsInterned(p, fi)
    && LocationsInterned(p, li)
  }

  /** `q` only appended to the string, function and location tables of `p`. */
  ghost predicate TablesGrow(p: Profile, q: Profile)
  {
    && p.stringTable <= q.stringTable
    && p.functions <= q.functions
    && p.locations <= q.locations
  }

  /** `q` only appended to the tables of `p` and changed nothing else. */
  ghost predicate Grows(p: Profile, q: Profile)
  {
    && TablesGrow(p, q)
    && q.sampleType == p.sampleType && q.samples == p.samples && q.periodType == p.periodType
    && q.period == p.period && q.timeNanos == p.timeNanos && q.durationNanos == p.durationNanos
  }

  // ---------------------------------------------------------------------
  // Facts about the invariant.

  /** The string table holds no duplicates. */
  lemma StringsDistinct(st: seq<string>, si: map<string, nat>, i: nat, j: nat)
    requires StringsInterned(st, si)
    requires i < j < |st|
    ensures st[i] != st[j]
  {
    assert SlotIndexed(st, si, i);
    assert SlotIndexed(st, si, j);
  }

  /** No two functions, and no two locations, share a key. */
  lemma KeysDistinct(p: Profile, si: map<string, nat>, fi: map<string, nat>, li: map<string, nat>, i: nat, j: nat)
    requires Interned(p, si, fi, li)
    requires i < j
    ensures j < |p.functions| ==> FunctionKey(p, p.functions[i]) != FunctionKey(p, p.functions[j])
    ensures j < |p.locations| ==> LocKey(p, p.locations[i]) != LocKey(p, p.locations[j])
  {
    assert FunctionIndexed(p, fi, i) && FunctionIndexed(p, fi, j);
    assert LocationIndexed(p, li, i) && LocationIndexed(p, li, j);
  }

  /** Growing the tables of a well-formed profile keeps the key of every function it already had. */
  lemma GrowsKeepsFunctionKey(p: Profile, q: Profile, i: nat)
    requires WellFormed(p) && TablesGrow(p, q) && i < |p.functions|
    ensures q.functions[i] == p.functions[i]
    ensures FunctionKey(q, q.functions[i]) == FunctionKey(p, p.functions[i])
  {
    assert FunctionOk(p, i);
    assert q.functions[i] == q.functions[..|p.functions|][i];
    var fn := p.functions[i];
    assert q.stringTable[fn.name] == q.stringTable[..|p.stringTable|][fn.name];
    assert q.stringTable[fn.filename] == q.stringTable[..|p.stringTable|][fn.filename];
  }

  /** Growing the tables of a well-formed profile keeps the key of every location id it already had. */
  lemma GrowsKeepsLocationKey(p: Profile, q: Profile, id: nat)
    requires WellFormed(p) && TablesGrow(p, q) && 1 <= id <= |p.locations|
    ensures q.locations[id - 1] == p.locations[id - 1]
    ensures LocationKey(q, id) == LocationKey(p, id)
  {
    assert LocationOk(p, id - 1);
    assert q.locations[id - 1] == q.locations[..|p.locations|][id - 1];
    var loc := p.locations[id - 1];
    GrowsKeepsFunctionKey(p, q, loc.line[0].functionId - 1);
  }

  /** Both key facts at once, for every old function and location. */
  lemma GrowsKeepsKeys(p: Profile, q: Profile)
    requires WellFormed(p) && TablesGrow(p, q)
    ensures forall i :: 0 <= i < |p.functions| ==>
      q.functions[i] == p.functions[i] && FunctionKey(q, q.functions[i]) == FunctionKey(p, p.functions[i])
    ensures forall i :: 0 <= i < |p.locations| ==>
      q.locations[i] == p.locations[i] && LocKey(q, q.locations[i]) == LocKey(p, p.locations[i])
  {
    forall i | 0 <= i < |p.functions|
      ensures q.functions[i] == p.functions[i] && FunctionKey(q, q.functions[i]) == FunctionKey(p, p.functions[i])
    {
      GrowsKeepsFunctionKey(p, q, i);
    }
    forall i | 0 <= i < |p.locations|
      ensures q.locations[i] == p.locations[i] && LocKey(q, q.locations[i]) == LocKey(p, p.locations[i])
    {
      GrowsKeepsLocationKey(p, q, i + 1);
    }
  }

  /** Growing the tables keeps a profile well formed when the new entries resolve. */
  lemma WellFormedGrows(p: Profile, q: Profile)
    requires WellFormed(p) && TablesGrow(p, q)
    requires q.sampleType == p.sampleType && q.periodType == p.periodType && q.samples == p.samples
    requires forall i :: |p.functions| <= i < |q.functions| ==> FunctionOk(q, i)
    requires forall i :: |p.locations| <= i < |q.locations| ==> LocationOk(q, i)
    ensures WellFormed(q)
  {
    forall i | 0 <= i < |q.sampleType|
      ensures SampleTypeOk(q, i)
    {
      assert SampleTypeOk(p, i);
    }
    forall i | 0 <= i < |p.functions|
      ensures FunctionOk(q, i)
    {
      assert FunctionOk(p, i);
      assert q.functions[i] == q.functions[..|p.functions|][i];
    }
    forall i | 0 <= i < |p.locations|
      ensures LocationOk(q, i)
    {
      assert LocationOk(p, i);
      assert q.locations[i] == q.locations[..|p.locations|][i];
    }
    forall i | 0 <= i < |q.samples|
      ensures SampleOk(q, i)
    {
      assert SampleOk(p, i);
    }
  }

  /** The function index survives growth that adds no function. */
  lemma FunctionsKept(p: Profile, q: Profile, fi: map<string, nat>)
    requires WellFormed(p) && TablesGrow(p, q) && q.functions == p.functions
    requires FunctionsInterned(p, fi)
    ensures FunctionsInterned(q, fi)
  {
    GrowsKeepsKeys(p, q);
    forall k
      ensures FunctionEntry(q, fi, k)
    {
      assert FunctionEntry(p, fi, k);
    }
    forall i
      ensures FunctionIndexed(q, fi, i)
    {
      assert FunctionIndexed(p, fi, i);
    }
  }

  /** The location index survives growth that adds no location. */
  lemma LocationsKept(p: Profile, q: Profile, li: map<string, nat>)
    requires WellFormed(p) && TablesGrow(p, q) && q.locations == p.locations
    requires LocationsInterned(p, li)
    ensures LocationsInterned(q, li)
  {
    GrowsKeepsKeys(p, q);
    forall k
      ensures LocationEntry(q, li, k)
    {
      assert LocationEntry(p, li, k);
    }
    forall i
      ensures LocationIndexed(q, li, i)
    {
      assert LocationIndexed(p, li, i);
    }
  }

  /** A new function indexed under its own key extends the function index. */
  lemma FunctionAdded(p: Profile, q: Profile, fi: map<string, nat>, fn: Function)
    requires WellFormed(p) && TablesGrow(p, q) && q.functions == p.functions + [fn]
    requires FunctionsInterned(p, fi) && fn.systemName == fn.name && FunctionKey(q, fn) !in fi
    ensures FunctionsInterned(q, fi[FunctionKey(q, fn) := |q.functions|])
  {
    GrowsKeepsKeys(p, q);
    var key := FunctionKey(q, fn);
    var fi2 := fi[key := |q.functions|];
    assert q.functions[|p.functions|] == fn;
    forall k
      ensures FunctionEntry(q, fi2, k)
    {
      assert FunctionEntry(p, fi, k);
    }
    forall i
      ensures FunctionIndexed(q, fi2, i)
    {
      assert FunctionIndexed(p, fi, i);
    }
  }

  /** A new location indexed under its function's key extends the location index. */
  lemma LocationAdded(p: Profile, q: Profile, li: map<string, nat>, loc: Location)
    requires WellFormed(p) && TablesGrow(p, q) && q.locations == p.locations + [loc]
    requires LocationsInterned(p, li) && |loc.line| == 1 && loc.line[0].line == 0 && LocKey(q, loc) !in li
    ensures LocationsInterned(q, li[LocKey(q, loc) := |q.locations|])
  {
    GrowsKeepsKeys(p, q);
    var key := LocKey(q, loc);
    var li2 := li[key := |q.locations|];
    assert q.locations[|p.locations|] == loc;
    forall k
      ensures LocationEntry(q, li2, k)
    {
      assert LocationEntry(p, li, k);
    }
    forall i
      ensures LocationIndexed(q, li2, i)
    {
      assert LocationIndexed(p, li, i);
    }
  }

  lemma AppendStringInterned(st: seq<string>, si: map<string, nat>, s: string)
    requires StringsInterned(st, si) && s !in si
    ensures StringsInterned(st + [s], si[s := |st|])
  {
    var st2, si2 := st + [s], si[s := |st|];
    forall x
      ensures StringSlot(st2, si2, x)
    {
      assert StringSlot(st, si, x);
    }
    forall i
      ensures SlotIndexed(st2, si2, i)
    {
      assert SlotIndexed(st, si, i);
    }
  }

  /** Appending a string that is not yet interned keeps the invariant. */
  lemma AppendString(p: Profile, si: map<string, nat>, fi: map<string, nat>, li: map<string, nat>, s: string)
    requires Interned(p, si, fi, li) && s !in si
    ensures Interned(p.(stringTable := p.stringTable + [s]), si[s := |p.stringTable|], fi, li)
  {
    var q := p.(stringTable := p.stringTable + [s]);
    WellFormedGrows(p, q);
    AppendStringInterned(p.stringTable, si, s);
    FunctionsKept(p, q, fi);
    LocationsKept(p, q, li);
  }

  /** Appending the function for a key that has none keeps the invariant. */
  lemma AppendFunction(p: Profile, si: map<string, nat>, fi: map<string, nat>, li: map<string, nat>,
                       name: string, file: string)
    requires Interned(p, si, fi, li)
    requires name in si && file in si && FrameKey(name, file) !in fi
    ensures var fn := Function(|p.functions| + 1, si[name], si[name], si[file]);
      Interned(p.(functions := p.functions + [fn]), si, fi[FrameKey(name, file) := |p.functions| + 1], li)
  {
    var fn := Function(|p.functions| + 1, si[name], si[name], si[file]);
    var q := p.(functions := p.functions + [fn]);
    assert StringSlot(p.stringTable, si, name) && StringSlot(p.stringTable, si, file);
    assert FunctionOk(q, |p.functions|);
    WellFormedGrows(p, q);
    assert FunctionKey(q, fn) == FrameKey(name, file);
    FunctionAdded(p, q, fi, fn);
    LocationsKept(p, q, li);
  }

  /** Appending the location for a key that has a function but no location keeps the invariant. */
  lemma AppendLocation(p: Profile, si: map<string, nat>, fi: map<string, nat>, li: map<string, nat>, key: string)
    requires Interned(p, si, fi, li)
    requires key in fi && key !in li
    ensures var q := p.(locations := p.locations + [Location(|p.locations| + 1, [Line(fi[key], 0)])]);
      && Interned(q, si, fi, li[key := |p.locations| + 1])
      && LocationKey(q, |p.locations| + 1) == key
  {
    var loc := Location(|p.locations| + 1, [Line(fi[key], 0)]);
    var q := p.(locations := p.locations + [loc]);
    assert FunctionEntry(p, fi, key);
    assert LocationOk(q, |p.locations|);
    WellFormedGrows(p, q);
    assert LocKey(q, loc) == key;
    FunctionsKept(p, q, fi);
    LocationAdded(p, q, li, loc);
  }

  /** Changing anything but the three tables keeps the interning, if references still resolve. */
  lemma SameTablesInterned(p: Profile, q: Profile, si: map<string, nat>, fi: map<string, nat>, li: map<string, nat>)
    requires Interned(p, si, fi, li) && WellFormed(q)
    requires q.stringTable == p.stringTable && q.functions == p.functions && q.locations == p.locations
    ensures Interned(q, si, fi, li)
  {
    FunctionsKept(p, q, fi);
    LocationsKept(p, q, li);
  }

  /** A value type whose strings resolve keeps its names when the string table grows. */
  lemma NamesKept(p: Profile, q: Profile, vt: ValueType)
    requires ValueTypeOk(p, vt) && p.stringTable <= q.stringTable
    ensures ValueTypeNames(q, vt) == ValueTypeNames(p, vt)
  {
    assert q.stringTable[vt.typ] == q.stringTable[..|p.stringTable|][vt.typ];
    assert q.stringTable[vt.unit] == q.stringTable[..|p.stringTable|][vt.unit];
  }

  /** Growing the string table keeps the names of every sample type. */
  lemma SampleTypeNamesKept(p: Profile, q: Profile)
    requires WellFormed(p) && p.stringTable <= q.stringTable && q.sampleType == p.sampleType
    ensures forall j :: 0 <= j < |p.sampleType| ==>
      ValueTypeNames(q, q.sampleType[j]) == ValueTypeNames(p, p.sampleType[j])
  {
    forall j | 0 <= j < |p.sampleType|
      ensures ValueTypeNames(q, q.sampleType[j]) == ValueTypeNames(p, p.sampleType[j])
    {
      assert SampleTypeOk(p, j);
      NamesKept(p, q, p.sampleType[j]);
    }
  }

  /** Setting the period type to a resolving value type keeps the invariant. */
  lemma SetPeriodTypeInterned(p: Profile, si: map<string, nat>, fi: map<string, nat>, li: map<string, nat>, vt: ValueType)
    requires Interned(p, si, fi, li) && ValueTypeOk(p, vt)
    ensures Interned(p.(periodType := Some(vt)), si, fi, li)
  {
    var q := p.(periodType := Some(vt));
    forall i | 0 <= i < |q.sampleType| ensures SampleTypeOk(q, i) { assert SampleTypeOk(p, i); }
    forall i | 0 <= i < |q.functions| ensures FunctionOk(q, i) { assert FunctionOk(p, i); }
    forall i | 0 <= i < |q.locations| ensures LocationOk(q, i) { assert LocationOk(p, i); }
    forall i | 0 <= i < |q.samples| ensures SampleOk(q, i) { assert SampleOk(p, i); }
    SameTablesInterned(p, q, si, fi, li);
  }

  /** Appending a resolving sample type keeps the invariant. */
  lemma AddSampleTypeInterned(p: Profile, si: map<string, nat>, fi: map<string, nat>, li: map<string, nat>, vt: ValueType)
    requires Interned(p, si, fi, li) && ValueTypeOk(p, vt)
    ensures Interned(p.(sampleType := p.sampleType + [vt]), si, fi, li)
  {
    var q := p.(sampleType := p.sampleType + [vt]);
    forall i | 0 <= i < |q.sampleType| ensures SampleTypeOk(q, i) { assert i < |p.sampleType| ==> SampleTypeOk(p, i); }
    forall i | 0 <= i < |q.functions| ensures FunctionOk(q, i) { assert FunctionOk(p, i); }
    forall i | 0 <= i < |q.locations| ensures LocationOk(q, i) { assert LocationOk(p, i); }
    forall i | 0 <= i < |q.samples| ensures SampleOk(q, i) { assert SampleOk(p, i); }
    SameTablesInterned(p, q, si, fi, li);
  }

  /** Setting the period keeps the invariant. */
  lemma SetPeriodInterned(p: Profile, si: map<string, nat>, fi: map<string, nat>, li: map<string, nat>, period: int)
    requires Interned(p, si, fi, li)
    ensures Interned(p.(period := period), si, fi, li)
  {
    var q := p.(period := period);
    forall i | 0 <= i < |q.sampleType| ensures SampleTypeOk(q, i) { assert SampleTypeOk(p, i); }
    forall i | 0 <= i < |q.functions| ensures FunctionOk(q, i) { assert FunctionOk(p, i); }
    forall i | 0 <= i < |q.locations| ensures LocationOk(q, i) { assert LocationOk(p, i); }
    forall i | 0 <= i < |q.samples| ensures SampleOk(q, i) { assert SampleOk(p, i); }
    SameTablesInterned(p, q, si, fi, li);
  }

  /** Appending a sample whose location ids all name locations keeps the invariant. */
  lemma AddSampleInterned(p: Profile, si: map<string, nat>, fi: map<string, nat>, li: map<string, nat>, s: Sample)
    requires Interned(p, si, fi, li)
    requires forall j :: 0 <= j < |s.locationId| ==> 1 <= s.locationId[j] <= |p.locations|
    ensures Interned(p.(samples := p.samples + [s]), si, fi, li)
  {
    var q := p.(samples := p.samples + [s]);
    forall i | 0 <= i < |q.sampleType| ensures SampleTypeOk(q, i) { assert SampleTypeOk(p, i); }
    forall i | 0 <= i < |q.functions| ensures FunctionOk(q, i) { assert FunctionOk(p, i); }
    forall i | 0 <= i < |q.locations| ensures LocationOk(q, i) { assert LocationOk(p, i); }
    forall i | 0 <= i < |q.samples| ensures SampleOk(q, i) { assert i < |p.samples| ==> SampleOk(p, i); }
    SameTablesInterned(p, q, si, fi, li);
  }

  // ---------------------------------------------------------------------
  // The builder.

  class Builder {
    var profile: Profile
    var stringIndex: map<string, nat>
    var functionIndex: map<string, nat>
    var locationIndex: map<string, nat>

    ghost predicate Valid()
      reads this
    {
      Interned(profile, stringIndex, functionIndex, locationIndex)
    }

    /** NewBuilder: an empty profile whose string table is [""]. */
    constructor ()
      ensures Valid()
      ensures profile == Profile([], [], [], [], [""], 0, 0, None, 0)
      ensures stringIndex == map["" := 0]
      ensures functionIndex == map[] && locationIndex == map[]
    {
      profile := Profile([], [], [], [], [""], 0, 0, None, 0);
      stringIndex := map["" := 0];
      functionIndex := map[];
      locationIndex := map[];
      assert forall s :: StringSlot([""], map["" := 0], s);
      assert forall i :: SlotIndexed([""], map["" := 0], i);
    }

    /** Interns `s`: the slot it already has, or a new slot at the end of the table. */
    method AddStringLocked(s: string) returns (idx: nat)
      requires Valid()
      modifies this
      ensures Valid()
      ensures idx < |profile.stringTable| && profile.stringTable[idx] == s
      ensures s in old(stringIndex) ==> idx == old(stringIndex[s]) && profile == old(profile)
      ensures s !in old(stringIndex) ==>
        idx == |old(profile.stringTable)| && profile == old(profile.(stringTable := profile.stringTable + [s]))
      ensures stringIndex == old(stringIndex)[s := idx]
      ensures functionIndex == old(functionIndex) && locationIndex == old(locationIndex)
    {
      if s in stringIndex {
        assert StringSlot(profile.stringTable, stringIndex, s);
        return stringIndex[s];
      }
      AppendString(profile, stringIndex, functionIndex, locationIndex, s);
      idx := |profile.stringTable|;
      profile := profile.(stringTable := profile.stringTable + [s]);
      stringIndex := stringIndex[s := idx];
    }

    /** AddString: the same interning as AddStringLocked, taken under the lock. */
    method AddString(s: string) returns (idx: nat)
      requires Valid()
      modifies this
      ensures Valid()
      ensures idx < |profile.stringTable| && profile.stringTable[idx] == s
      ensures s in old(stringIndex) ==> idx == old(stringIndex[s]) && profile == old(profile)
      ensures s !in old(stringIndex) ==>
        idx == |old(profile.stringTable)| && profile == old(profile.(stringTable := profile.stringTable + [s]))
      ensures stringIndex == old(stringIndex)[s := idx]
      ensures functionIndex == old(functionIndex) && locationIndex == old(locationIndex)
    {
      idx := AddStringLocked(s);
    }

    /** Interns the Name, SystemName and Filename strings of a new function, in that order. */
    method InternFrameLocked(name: string, filename: string) returns (nameIdx: nat, systemIdx: nat, fileIdx: nat)
      requires Valid()
      modifies this
      ensures Valid() && Grows(old(profile), profile)
      ensures profile.functions == old(profile.functions) && profile.locations == old(profile.locations)
      ensures systemIdx == nameIdx
      ensures stringIndex == old(stringIndex)[name := nameIdx][filename := fileIdx]
      ensures stringIndex[name] == nameIdx
      ensures functionIndex == old(functionIndex) && locationIndex == old(locationIndex)
    {
      nameIdx := AddStringLocked(name);
      systemIdx := AddStringLocked(name);
      fileIdx := AddStringLocked(filename);
    }

    /** Creates the function for a key that has none: id len(Function)+1, strings interned. */
    method NewFunctionLocked(name: string, filename: string) returns (id: nat)
      requires Valid() && FrameKey(name, filename) !in functionIndex
      modifies this
      ensures Valid() && Grows(old(profile), profile) && profile.locations == old(profile.locations)
      ensures name in stringIndex && filename in stringIndex
      ensures id == |old(profile.functions)| + 1
      ensures profile.functions == old(profile.functions) + [Function(id, stringIndex[name], stringIndex[name], stringIndex[filename])]
      ensures stringIndex.Keys == old(stringIndex.Keys) + {name, filename}
      ensures functionIndex == old(functionIndex)[FrameKey(name, filename) := id]
      ensures locationIndex == old(locationIndex)
    {
      var nameIdx, systemIdx, fileIdx := InternFrameLocked(name, filename);
      id := |profile.functions| + 1;
      AppendFunction(profile, stringIndex, functionIndex, locationIndex, name, filename);
      profile := profile.(functions := profile.functions + [Function(id, nameIdx, systemIdx, fileIdx)]);
      functionIndex := functionIndex[FrameKey(name, filename) := id];
    }

    /** GetOrCreateFunction: one function per (name, filename) key, ids dense from 1. */
    method GetOrCreateFunction(name: string, filename: string) returns (id: nat)
      requires Valid()
      modifies this
      ensures Valid() && Grows(old(profile), profile) && profile.locations == old(profile.locations)
      ensures 1 <= id <= |profile.functions| && profile.functions[id - 1].id == id
      ensures FunctionKey(profile, profile.functions[id - 1]) == FrameKey(name, filename)
      ensures FrameKey(name, filename) in old(functionIndex) ==>
        id == old(functionIndex[FrameKey(name, filename)]) && profile == old(profile)
        && stringIndex == old(stringIndex)
      ensures FrameKey(name, filename) !in old(functionIndex) ==>
        && id == |old(profile.functions)| + 1
        && name in stringIndex && filename in stringIndex
        && profile.functions == old(profile.functions) + [Function(id, stringIndex[name], stringIndex[name], stringIndex[filename])]
        && stringIndex.Keys == old(stringIndex.Keys) + {name, filename}
      ensures functionIndex == old(functionIndex)[FrameKey(name, filename) := id]
      ensures locationIndex == old(locationIndex)
    {
      var key := FrameKey(name, filename);
      if key in functionIndex {
        assert FunctionEntry(profile, functionIndex, key);
        assert FunctionOk(profile, functionIndex[key] - 1);
        return functionIndex[key];
      }
      id := NewFunctionLocked(name, filename);
      assert FunctionEntry(profile, functionIndex, key);
      assert FunctionOk(profile, id - 1);
    }

    /**
     * GetOrCreateLocation: one location per key, ids dense from 1, each with
     * a single line (number 0) naming the function of the same key, which is
     * created first when the key has none.
     */
    method GetOrCreateLocation(name: string, filename: string) returns (id: nat)
      requires Valid()
      modifies this
      ensures Valid() && Grows(old(profile), profile)
      ensures 1 <= id <= |profile.locations| && profile.locations[id - 1].id == id
      ensures LocationKey(profile, id) == FrameKey(name, filename)
      ensures FrameKey(name, filename) in old(locationIndex) ==>
        id == old(locationIndex[FrameKey(name, filename)]) && profile == old(profile)
        && stringIndex == old(stringIndex) && functionIndex == old(functionIndex)
      ensures FrameKey(name, filename) !in old(locationIndex) ==>
        && id == |old(profile.locations)| + 1
        && FrameKey(name, filename) in functionIndex
        && profile.locations == old(profile.locations) + [Location(id, [Line(functionIndex[FrameKey(name, filename)], 0)])]
        && (FrameKey(name, filename) in old(functionIndex) ==>
              profile.functions == old(profile.functions) && functionIndex == old(functionIndex))
        && (FrameKey(name, filename) !in old(functionIndex) ==>
              |profile.functions| == |old(profile.functions)| + 1
              && functionIndex == old(functionIndex)[FrameKey(name, filename) := |profile.functions|])
      ensures locationIndex == old(locationIndex)[FrameKey(name, filename) := id]
    {
      var key := FrameKey(name, filename);
      if key in locationIndex {
        assert LocationEntry(profile, locationIndex, key);
        assert LocationOk(profile, locationIndex[key] - 1);
        return locationIndex[key];
      }
      // A missing key reads as 0, which is never an id.
      var funcId := if key in functionIndex then functionIndex[key] else 0;
      assert FunctionEntry(profile, functionIndex, key);
      if funcId == 0 {
        funcId := NewFunctionLocked(name, filename);
      }
      id := NewLocationLocked(key, funcId);
    }

    /** Creates the location for a key that has a function but no location: id len(Location)+1. */
    method NewLocationLocked(key: string, funcId: nat) returns (id: nat)
      requires Valid() && key in functionIndex && functionIndex[key] == funcId && key !in locationIndex
      modifies this
      ensures Valid() && Grows(old(profile), profile)
      ensures id == |old(profile.locations)| + 1
      ensures profile == old(profile.(locations := profile.locations + [Location(id, [Line(funcId, 0)])]))
      ensures LocationKey(profile, id) == key
      ensures locationIndex == old(locationIndex)[key := id]
      ensures stringIndex == old(stringIndex) && functionIndex == old(functionIndex)
    {
      id := |profile.locations| + 1;
      AppendLocation(profile, stringIndex, functionIndex, locationIndex, key);
      profile := profile.(locations := profile.locations + [Location(id, [Line(funcId, 0)])]);
      locationIndex := locationIndex[key := id];
    }

    /** SetSampleTypes: appends one value type per (type, unit) pair, interning both strings. */
    method SetSampleTypes(types: seq<(string, string)>)
      requires Valid()
      modifies this
      ensures Valid()
      ensures old(profile.stringTable) <= profile.stringTable
      ensures profile == old(profile).(stringTable := profile.stringTable, sampleType := profile.sampleType)
      ensures |profile.sampleType| == |old(profile.sampleType)| + |types|
      ensures profile.sampleType[..|old(profile.sampleType)|] == old(profile.sampleType)
      ensures forall j :: 0 <= j < |types| ==>
        ValueTypeNames(profile, profile.sampleType[|old(profile.sampleType)| + j]) == types[j]
      ensures functionIndex == old(functionIndex) && locationIndex == old(locationIndex)
    {
      ghost var p0 := profile;
      var n := |profile.sampleType|;
      for i := 0 to |types|
        invariant Valid()
        invariant p0.stringTable <= profile.stringTable
        invariant profile == p0.(stringTable := profile.stringTable, sampleType := profile.sampleType)
        invariant |profile.sampleType| == n + i && profile.sampleType[..n] == p0.sampleType
        invariant forall j :: 0 <= j < i ==> ValueTypeNames(profile, profile.sampleType[n + j]) == types[j]
        invariant functionIndex == old(functionIndex) && locationIndex == old(locationIndex)
      {
        AppendSampleType(types[i].0, types[i].1);
      }
    }

    /** One step of SetSampleTypes: interns the type, then the unit, and appends the pair. */
    method AppendSampleType(typeName: string, unit: string)
      requires Valid()
      modifies this
      ensures Valid()
      ensures old(profile.stringTable) <= profile.stringTable
      ensures profile == old(profile).(stringTable := profile.stringTable, sampleType := profile.sampleType)
      ensures |profile.sampleType| == |old(profile.sampleType)| + 1
      ensures profile.sampleType[..|old(profile.sampleType)|] == old(profile.sampleType)
      ensures forall j :: 0 <= j < |old(profile.sampleType)| ==>
        ValueTypeNames(profile, profile.sampleType[j]) == ValueTypeNames(old(profile), old(profile).sampleType[j])
      ensures ValueTypeNames(profile, profile.sampleType[|old(profile.sampleType)|]) == (typeName, unit)
      ensures functionIndex == old(functionIndex) && locationIndex == old(locationIndex)
    {
      ghost var p0 := profile;
      var t := AddString(typeName);
      var u := AddString(unit);
      SampleTypeNamesKept(p0, profile);
      AddSampleTypeInterned(profile, stringIndex, functionIndex, locationIndex, ValueType(t, u));
      profile := profile.(sampleType := profile.sampleType + [ValueType(t, u)]);
    }

    /** SetPeriodType: the period type is (type, unit), both strings interned. */
    method SetPeriodType(typeName: string, unit: string)
      requires Valid()
      modifies this
      ensures Valid()
      ensures old(profile.stringTable) <= profile.stringTable
      ensures profile == old(profile).(stringTable := profile.stringTable, periodType := profile.periodType)
      ensures profile.periodType.Some? && ValueTypeNames(profile, profile.periodType.value) == (typeName, unit)
      ensures functionIndex == old(functionIndex) && locationIndex == old(locationIndex)
    {
      var t := AddString(typeName);
      var u := AddString(unit);
      SetPeriodTypeInterned(profile, stringIndex, functionIndex, locationIndex, ValueType(t, u));
      profile := profile.(periodType := Some(ValueType(t, u)));
    }

    /** Build: the profile under construction, every reference of which resolves. */
    method Build() returns (p: Profile)
      requires Valid()
      ensures p == profile && WellFormed(p)
    {
      p := profile;
    }
  }
}
