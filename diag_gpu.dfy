/**
 * The GPU tile of the desktop diagnostics tool: the one-line CSV that `nvidia-smi` prints is
 * mapped to named fields; without it the `lspci` or `wmic` line gives a model and a
 * manufacturer, and every field still missing is filled with "N/A" without touching the rest.
 */
module DiagGpu {
  import opened PyStr

  /** What `get_gpu_info` could run, with the output it got (saved tools and platform tests decide which). */
  datatype GpuProbe =
    | NvidiaSmi(out: string)   // `nvidia-smi` is installed
    | Lspci(out: string)       // Linux with `lspci`
    | Wmic(out: string)        // Windows with `wmic`
    | NoProbe                  // none of these

  /** The keys of the GPU dictionary. */
  datatype GpuKey =
    | Manufacturer | Model | Driver | VramTotal | VramUsed | ClockCore | ClockMem | Temp | Power

  /** The key as the dictionary spells it. */
  function KeyName(k: GpuKey): string {
    match k
    case Manufacturer => "manufacturer"
    case Model => "model"
    case Driver => "driver"
    case VramTotal => "vram_total"
    case VramUsed => "vram_used"
    case ClockCore => "clock_core"
    case ClockMem => "clock_mem"
    case Temp => "temp"
    case Power => "power"
  }

  /** The fields of an `nvidia-smi` row, in the order its query asks for them. */
  const GpuKeys: seq<GpuKey> := [Model, Driver, VramTotal, VramUsed, ClockCore, ClockMem, Temp, Power]

  /** The fields `setdefault` fills on the other paths: all but the model. */
  const DefaultKeys: set<GpuKey> := {Driver, VramTotal, VramUsed, ClockCore, ClockMem, Temp, Power}

  /** The placeholder for a value the tool could not find. */
  const NA: string := "N/A"
  const Nvidia: string := "NVIDIA"
  const NoOutput: string := "NVIDIA (no output)"
  const Unknown: string := "Unknown"
  const Megabytes: string := " MB"

  /** The stripped columns of the first line of a non-empty `nvidia-smi` output. */
  function NvidiaColumns(out: string): (cols: seq<string>)
    requires out != []
    ensures |cols| >= 1
  {
    StripAll(SplitOn(SplitLines(out)[0], ","))
  }

  /**
   * The columns come back from the row `nvidia-smi` prints for them: the fields of the first
   * line joined by commas, whatever lines follow.
   */
  lemma {:induction false} NvidiaRowRoundTrip(fields: seq<string>, rest: string)
    requires fields != []
    requires forall i :: 0 <= i < |fields| ==> Trimmed(fields[i]) && ',' !in fields[i] && NoLineBreak(fields[i])
    ensures NvidiaColumns(Join(",", fields) + "\n" + rest) == fields
  {
    var row := Join(",", fields);
    JoinNoLineBreak(",", fields);
    FirstLine(row, rest);
    forall i | 0 <= i < |fields|
      ensures FindSub(fields[i], ",") == -1
    {
      FindSubChar(fields[i], ',');
    }
    SplitOnJoinUnique(",", fields);
    StripAllTrimmed(fields);
  }

  /**
   * The value of field `i` for the columns `cols`: column `i` when there is one (the two
   * memory sizes get " MB"), otherwise "NVIDIA" for the model and "N/A" for the rest.
   */
  function NvidiaField(cols: seq<string>, i: nat): string {
    if i < |cols| then (if i == 2 || i == 3 then cols[i] + Megabytes else cols[i])
    else if i == 0 then Nvidia
    else NA
  }

  /** `g.setdefault(k, v)`: `k` gets `v` only when it has no value yet. */
  function SetDefault(g: map<GpuKey, string>, k: GpuKey, v: string): (r: map<GpuKey, string>)
    ensures r.Keys == g.Keys + {k}
    ensures k in g ==> r[k] == g[k]
    ensures k !in g ==> r[k] == v
  {
    if k in g then g else g[k := v]
  }

  /** The `lspci` rule: AMD when the line names AMD or Radeon, else Intel when it names Intel. */
  function LspciManufacturer(out: string): (m: string)
    ensures m == "AMD" <==> Contains(out, "AMD") || Contains(out, "Radeon")
    ensures m == "Intel" <==> !Contains(out, "AMD") && !Contains(out, "Radeon") && Contains(out, "Intel")
    ensures m == "Unknown" <==> !Contains(out, "AMD") && !Contains(out, "Radeon") && !Contains(out, "Intel")
  {
    if Contains(out, "AMD") || Contains(out, "Radeon") then "AMD"
    else if Contains(out, "Intel") then "Intel"
    else "Unknown"
  }

  /**
   * `g` is `g0` after `setdefault(k, "N/A")` for each key of `done`: those keys are added,
   * the fields `g0` had keep their values and the others are "N/A".
   */
  predicate Defaulted(g0: map<GpuKey, string>, g: map<GpuKey, string>, done: set<GpuKey>) {
    && g.Keys == g0.Keys + done
    && (forall k :: k in g0 ==> g[k] == g0[k])
    && (forall k :: k in done && k !in g0 ==> g[k] == NA)
  }

  /** One more `setdefault` extends what has been defaulted by its key. */
  lemma {:induction false} DefaultStep(g0: map<GpuKey, string>, g: map<GpuKey, string>, done: set<GpuKey>, k: GpuKey)
    requires Defaulted(g0, g, done)
    ensures Defaulted(g0, SetDefault(g, k, NA), done + {k})
  {
  }

  /** The seven `setdefault` calls, in the source's order. */
  method ApplyDefaults(g0: map<GpuKey, string>) returns (g: map<GpuKey, string>)
    ensures g.Keys == g0.Keys + DefaultKeys
    ensures forall k :: k in g0 ==> g[k] == g0[k]
    ensures forall k :: k in DefaultKeys && k !in g0 ==> g[k] == NA
  {
    ghost var done: set<GpuKey> := {};
    g := g0;
    DefaultStep(g0, g, done, Driver);
    g, done := SetDefault(g, Driver, NA), done + {Driver};
    DefaultStep(g0, g, done, VramTotal);
    g, done := SetDefault(g, VramTotal, NA), done + {VramTotal};
    DefaultStep(g0, g, done, VramUsed);
    g, done := SetDefault(g, VramUsed, NA), done + {VramUsed};
    DefaultStep(g0, g, done, ClockCore);
    g, done := SetDefault(g, ClockCore, NA), done + {ClockCore};
    DefaultStep(g0, g, done, ClockMem);
    g, done := SetDefault(g, ClockMem, NA), done + {ClockMem};
    DefaultStep(g0, g, done, Temp);
    g, done := SetDefault(g, Temp, NA), done + {Temp};
    DefaultStep(g0, g, done, Power);
    g, done := SetDefault(g, Power, NA), done + {Power};
    DefaultKeysInOrder();
  }

  lemma {:induction false} DefaultKeysInOrder()
    ensures {} + {Driver} + {VramTotal} + {VramUsed} + {ClockCore} + {ClockMem} + {Temp} + {Power} == DefaultKeys
  {
  }

  /** The keys the `nvidia-smi` path sets. */
  const NvidiaKeys: set<GpuKey> := {Manufacturer, Model, Driver, VramTotal, VramUsed, ClockCore, ClockMem, Temp, Power}

  /** The `nvidia-smi` path for the columns `cols`: the fields one assignment at a time. */
  method NvidiaInfo(cols: seq<string>) returns (g: map<GpuKey, string>)
    ensures g.Keys == NvidiaKeys
    ensures g[Manufacturer] == Nvidia
    ensures forall i :: 0 <= i < |GpuKeys| ==> g[GpuKeys[i]] == NvidiaField(cols, i)
  {
    g := map[];
    g := g[Manufacturer := Nvidia];
    g := g[Model := if |cols| > 0 then cols[0] else Nvidia];
    g := g[Driver := if |cols| > 1 then cols[1] else NA];
    g := g[VramTotal := if |cols| > 2 then cols[2] + Megabytes else NA];
    g := g[VramUsed := if |cols| > 3 then cols[3] + Megabytes else NA];
    g := g[ClockCore := if |cols| > 4 then cols[4] else NA];
    g := g[ClockMem := if |cols| > 5 then cols[5] else NA];
    g := g[Temp := if |cols| > 6 then cols[6] else NA];
    g := g[Power := if |cols| > 7 then cols[7] else NA];
  }

  /**
   * `get_gpu_info`. On Windows a `wmic` output made only of whitespace has no last line; the
   * `IndexError` is caught and the result is `{"manufacturer": "N/A"}`.
   */
  method GetGpuInfo(probe: GpuProbe) returns (g: map<GpuKey, string>)
    ensures probe.NvidiaSmi? && probe.out != [] ==>
      && g.Keys == NvidiaKeys
      && g[Manufacturer] == Nvidia
      && forall i :: 0 <= i < |GpuKeys| ==> g[GpuKeys[i]] == NvidiaField(NvidiaColumns(probe.out), i)
    ensures probe.NvidiaSmi? && probe.out == [] ==> g == map[Model := NoOutput]
    ensures probe.Lspci? ==>
      && g.Keys == {Model, Manufacturer} + DefaultKeys
      && g[Model] == (if Strip(probe.out) == [] then NA else Strip(probe.out))
      && g[Manufacturer] == LspciManufacturer(probe.out)
    ensures probe.Wmic? && probe.out != [] && AllSpace(probe.out) ==> g == map[Manufacturer := NA]
    ensures probe.Wmic? && !AllSpace(probe.out) ==>
      && g.Keys == {Model, Manufacturer} + DefaultKeys
      && g[Model] == Last(SplitLines(Strip(probe.out)))
      && g[Manufacturer] == Unknown
    ensures (probe.Wmic? && probe.out == []) || probe.NoProbe? ==>
      && g.Keys == {Model, Manufacturer} + DefaultKeys
      && g[Model] == NA && g[Manufacturer] == Unknown
    ensures !probe.NvidiaSmi? && !(probe.Wmic? && probe.out != [] && AllSpace(probe.out)) ==>
      forall k :: k in DefaultKeys ==> g[k] == NA
  {
    match probe
    case NvidiaSmi(out) =>
      if out != [] {
        var first := SplitLines(out)[0];
        var cols := StripAll(SplitOn(first, ","));
        g := NvidiaInfo(cols);
      } else {
        g := map[Model := NoOutput];
      }
    case Lspci(out) =>
      var model := Strip(out);
      g := OtherInfo(if model != [] then model else NA, LspciManufacturer(out));
    case Wmic(out) =>
      var model := NA;
      if out != [] {
        var lines := SplitLines(Strip(out));
        if lines == [] {
          return map[Manufacturer := NA];
        }
        model := lines[|lines| - 1];
      }
      g := OtherInfo(model, Unknown);
    case NoProbe =>
      g := OtherInfo(NA, Unknown);
  }

  /** The dictionary the paths without `nvidia-smi` end with: a model, a manufacturer and the defaults. */
  method OtherInfo(model: string, manufacturer: string) returns (g: map<GpuKey, string>)
    ensures g.Keys == {Model, Manufacturer} + DefaultKeys
    ensures g[Model] == model && g[Manufacturer] == manufacturer
    ensures forall k :: k in DefaultKeys ==> g[k] == NA
  {
    g := map[Model := model];
    g := g[Manufacturer := manufacturer];
    g := ApplyDefaults(g);
  }

  /** `lines[-1]` of a non-empty list. */
  function Last(lines: seq<string>): string
    requires lines != []
  {
    lines[|lines| - 1]
  }
}
