/** `get_colors_from_style`: flatten one style's table (landcover class -> drawing
    settings) into landcover-key -> colour. The style table is given; looking it up
    by name in the library's `STYLES` is not part of this model. */
module StyleColors {
  import opened Wrappers
  import opened Text

  /** A colour setting: one colour, or a list of colours (a colour map). */
  datatype Colour = Hex(code: string) | Palette(codes: seq<string>)

  /** The two settings read from a class's style. `cmap` tells a missing key (`None`)
      from a key that is present and holds `None` (`Some(None)`); for `fc` the two
      read alike, since only `class_style.get("fc")` is ever asked. */
  datatype ClassStyle = ClassStyle(cmap: Option<Option<Colour>>, fc: Option<Colour>)

  type StyleTable = seq<(string, ClassStyle)>

  /** `class_style.get("cmap", class_style.get("fc"))`. */
  function ChosenColour(style: ClassStyle): Option<Colour>
  {
    if style.cmap.Some? then style.cmap.value else style.fc
  }

  /** The key of the `idx`-th colour of a list: `f"{lc_class}_{idx}"`. */
  function IndexedKey(lcClass: string, idx: nat): string
  {
    lcClass + "_" + NatToString(idx)
  }

  /** The assignments made for one class, in order: one per list element, or one
      under the class's own name (holding `None` when neither setting is present). */
  function ClassEntries(lcClass: string, colour: Option<Colour>): seq<(string, Option<string>)>
  {
    match colour
    case Some(Palette(codes)) =>
      seq(|codes|, i requires 0 <= i < |codes| => (IndexedKey(lcClass, i), Some(codes[i])))
    case Some(Hex(code)) => [(lcClass, Some(code))]
    case None => [(lcClass, None)]
  }

  /** All assignments the nested loops make, class by class. */
  function Entries(table: StyleTable): seq<(string, Option<string>)>
  {
    if table == [] then []
    else
      var last := table[|table| - 1];
      Entries(table[..|table| - 1]) + ClassEntries(last.0, ChosenColour(last.1))
  }

  /** The dict those assignments produce: a later assignment to a key overwrites. */
  function MapOf(entries: seq<(string, Option<string>)>): map<string, Option<string>>
  {
    if entries == [] then map[]
    else
      var last := entries[|entries| - 1];
      MapOf(entries[..|entries| - 1])[last.0 := last.1]
  }

  /** `get_colors_from_style`: the outer loop over the classes. */
  method ColorsFromStyle(table: StyleTable) returns (colors: map<string, Option<string>>)
    ensures colors == MapOf(Entries(table))
  {
    colors := map[];
    for i := 0 to |table|
      invariant colors == MapOf(Entries(table[..i]))
    {
      var (lcClass, classStyle) := table[i];
      var colour := if classStyle.cmap.Some? then classStyle.cmap.value else classStyle.fc;
      EntriesAppend(table, i);
      colors := AssignClass(colors, lcClass, colour, Entries(table[..i]));
    }
    assert table[..|table|] == table;
  }

  /** The body of the outer loop for one class, with the inner loop over a list. */
  method AssignClass(colors: map<string, Option<string>>, lcClass: string, colour: Option<Colour>,
                     ghost done: seq<(string, Option<string>)>)
    returns (colors': map<string, Option<string>>)
    requires colors == MapOf(done)
    ensures colors' == MapOf(done + ClassEntries(lcClass, colour))
  {
    ghost var entries := ClassEntries(lcClass, colour);
    colors' := colors;
    if colour.Some? && colour.value.Palette? {
      var codes := colour.value.codes;
      assert done + entries[..0] == done;
      for idx := 0 to |codes|
        invariant colors' == MapOf(done + entries[..idx])
      {
        MapOfStep(done, entries, idx);
        colors' := colors'[IndexedKey(lcClass, idx) := Some(codes[idx])];
      }
      assert entries[..|codes|] == entries;
    } else {
      MapOfStep(done, entries, 0);
      assert entries[..1] == entries;
      colors' := colors'[lcClass := if colour.Some? then Some(colour.value.code) else None];
    }
  }

  /** One assignment of the inner loop: the dict after `idx + 1` entries of a class. */
  lemma MapOfStep(done: seq<(string, Option<string>)>, entries: seq<(string, Option<string>)>, idx: nat)
    requires idx < |entries|
    ensures MapOf(done + entries[..idx + 1]) == MapOf(done + entries[..idx])[entries[idx].0 := entries[idx].1]
  {
    var x := done + entries[..idx + 1];
    assert x[..|x| - 1] == done + entries[..idx];
    assert x[|x| - 1] == entries[idx];
  }

  /** The keys of the dict are exactly the keys assigned. */
  lemma {:induction false} MapOfKeys(entries: seq<(string, Option<string>)>)
    ensures forall k :: k in MapOf(entries) <==> exists i :: 0 <= i < |entries| && entries[i].0 == k
  {
    if entries != [] {
      var init := entries[..|entries| - 1];
      MapOfKeys(init);
      assert forall i :: 0 <= i < |init| ==> init[i] == entries[i];
    }
  }

  /** The value under a key is the one of the last assignment to it. */
  lemma {:induction false} MapOfLastWins(entries: seq<(string, Option<string>)>, i: nat)
    requires i < |entries|
    requires forall j :: i < j < |entries| ==> entries[j].0 != entries[i].0
    ensures entries[i].0 in MapOf(entries) && MapOf(entries)[entries[i].0] == entries[i].1
  {
    var init := entries[..|entries| - 1];
    if i < |entries| - 1 {
      assert forall j :: i < j < |init| ==> init[j] == entries[j];
      MapOfLastWins(init, i);
    }
  }

  lemma EntriesAppend(table: StyleTable, i: nat)
    requires i < |table|
    ensures Entries(table[..i + 1]) == Entries(table[..i]) + ClassEntries(table[i].0, ChosenColour(table[i].1))
  {
    assert table[..i + 1][..i] == table[..i];
  }

  /** The assignments for the first `i` classes come first. */
  lemma {:induction false} EntriesPrefix(table: StyleTable, i: nat)
    requires i <= |table|
    ensures Entries(table[..i]) <= Entries(table)
    decreases |table| - i
  {
    if i == |table| {
      assert table[..i] == table;
    } else {
      EntriesPrefix(table, i + 1);
      EntriesAppend(table, i);
    }
  }

  /** Keys assigned for different classes never coincide. */
  ghost predicate DistinctKeys(entries: seq<(string, Option<string>)>)
  {
    forall i, j :: 0 <= i < j < |entries| ==> entries[i].0 != entries[j].0
  }

  /** When no two assignments share a key, every assignment made for a class
      survives in the dict. */
  lemma ClassEntrySurvives(table: StyleTable, t: nat, q: nat)
    requires t < |table|
    requires DistinctKeys(Entries(table))
    requires q < |ClassEntries(table[t].0, ChosenColour(table[t].1))|
    ensures var e := ClassEntries(table[t].0, ChosenColour(table[t].1))[q];
            e.0 in MapOf(Entries(table)) && MapOf(Entries(table))[e.0] == e.1
  {
    var es := Entries(table);
    var before := Entries(table[..t]);
    var mine := ClassEntries(table[t].0, ChosenColour(table[t].1));
    EntriesPrefix(table, t + 1);
    EntriesAppend(table, t);
    PartSurvives(es, before, mine, q);
  }

  lemma PartSurvives(es: seq<(string, Option<string>)>, before: seq<(string, Option<string>)>,
                     mine: seq<(string, Option<string>)>, q: nat)
    requires before + mine <= es && q < |mine|
    requires DistinctKeys(es)
    ensures mine[q].0 in MapOf(es) && MapOf(es)[mine[q].0] == mine[q].1
  {
    var i := |before| + q;
    assert es[i] == (before + mine)[i] == mine[q];
    MapOfLastWins(es, i);
  }

  /** A list colour (from `cmap` when present, else from `fc`) yields one key
      `class_idx` per index, holding that element. */
  lemma PaletteColours(table: StyleTable, t: nat, idx: nat)
    requires t < |table|
    requires DistinctKeys(Entries(table))
    requires ChosenColour(table[t].1).Some? && ChosenColour(table[t].1).value.Palette?
    requires idx < |ChosenColour(table[t].1).value.codes|
    ensures var colors := MapOf(Entries(table));
            IndexedKey(table[t].0, idx) in colors
            && colors[IndexedKey(table[t].0, idx)] == Some(ChosenColour(table[t].1).value.codes[idx])
  {
    ClassEntrySurvives(table, t, idx);
  }

  /** A single colour yields the key `class` holding it; no colour at all yields
      `class` holding `None`. */
  lemma SingleColour(table: StyleTable, t: nat)
    requires t < |table|
    requires DistinctKeys(Entries(table))
    requires ChosenColour(table[t].1).None? || ChosenColour(table[t].1).value.Hex?
    ensures var colors := MapOf(Entries(table));
            var colour := ChosenColour(table[t].1);
            table[t].0 in colors
            && colors[table[t].0] == (if colour.Some? then Some(colour.value.code) else None)
  {
    ClassEntrySurvives(table, t, 0);
  }

  /** A `cmap` key holding `None` hides `fc`: the class is mapped to `None`. */
  lemma CmapNoneHidesFc(table: StyleTable, t: nat)
    requires t < |table| && table[t].1.cmap == Some(None)
    requires DistinctKeys(Entries(table))
    ensures table[t].0 in MapOf(Entries(table)) && MapOf(Entries(table))[table[t].0] == None
  {
    SingleColour(table, t);
  }

  /** `cmap` takes precedence: when the key is present, even holding `None`, `fc` is
      never consulted. */
  lemma CmapPreferred(table: StyleTable, t: nat, fc: Option<Colour>)
    requires t < |table| && table[t].1.cmap.Some?
    ensures var table' := table[t := (table[t].0, ClassStyle(table[t].1.cmap, fc))];
            MapOf(Entries(table')) == MapOf(Entries(table))
  {
    var table' := table[t := (table[t].0, ClassStyle(table[t].1.cmap, fc))];
    EntriesSameColours(table, table');
  }

  lemma {:induction false} EntriesSameColours(a: StyleTable, b: StyleTable)
    requires |a| == |b|
    requires forall i :: 0 <= i < |a| ==> a[i].0 == b[i].0 && ChosenColour(a[i].1) == ChosenColour(b[i].1)
    ensures Entries(a) == Entries(b)
  {
    if a != [] {
      EntriesSameColours(a[..|a| - 1], b[..|b| - 1]);
    }
  }
}
