// Hardware policy of the GPU probe: the vendor read off an adapter name,
// the VRAM sufficiency check, the tile-size and batch-size tiers chosen from
// the card's memory, and the parsing of the one-line outputs of the
// command-line fallbacks.  Running those commands is not modelled; their
// output text is the input.

module Gpu {
  import Errors
  import opened Text

  datatype GpuVendor = Nvidia | Amd | Intel | Apple | Unknown

  /** What the probe reports about the adapter; memory in MiB. */
  datatype GpuInfo = GpuInfo(name: string, vramUsedMb: nat, vramTotalMb: nat, vendor: GpuVendor,
                             detectionMethod: string, isNpu: bool)

  // ---------------------------------------------------------------------
  // Vendor classification

  /**
   * The vendor named by an adapter name, matched case-insensitively in the
   * order Nvidia, Amd ("amd" or "radeon"), Intel, Apple ("apple", "m1",
   * "m2" or "m3"); a name matching none is Unknown.
   */
  function FromName(name: string): (r: GpuVendor)
    ensures var l := ToLower(name);
            (r == Nvidia <==> Contains(l, "nvidia"))
            && (r == Amd <==> !Contains(l, "nvidia") && (Contains(l, "amd") || Contains(l, "radeon")))
            && (r == Intel <==> !Contains(l, "nvidia") && !Contains(l, "amd") && !Contains(l, "radeon")
                                && Contains(l, "intel"))
            && (r == Unknown <==> !Contains(l, "nvidia") && !Contains(l, "amd") && !Contains(l, "radeon")
                                  && !Contains(l, "intel") && !Contains(l, "apple") && !Contains(l, "m1")
                                  && !Contains(l, "m2") && !Contains(l, "m3"))
  {
    var l := ToLower(name);
    if Contains(l, "nvidia") then Nvidia
    else if Contains(l, "amd") || Contains(l, "radeon") then Amd
    else if Contains(l, "intel") then Intel
    else if Contains(l, "apple") || Contains(l, "m1") || Contains(l, "m2") || Contains(l, "m3") then Apple
    else Unknown
  }

  /** Classification ignores letter case: a name and its lower-case form get the same vendor. */
  lemma FromNameIgnoresCase(name: string)
    ensures FromName(ToLower(name)) == FromName(name)
  {
    ToLowerIdempotent(name);
  }

  /** An "nvidia" anywhere in the name decides the vendor, whatever else the name mentions. */
  lemma NvidiaWins(prefix: string, suffix: string)
    ensures FromName(prefix + "NVIDIA" + suffix) == Nvidia
  {
    var name := prefix + "NVIDIA" + suffix;
    var l := ToLower(name);
    assert l[|prefix|..|prefix| + 6] == "nvidia";
    ContainsAt(l, "nvidia", |prefix|);
  }

  // ---------------------------------------------------------------------
  // Memory policy

  /** Subtraction that stops at zero, as unsigned saturating subtraction does. */
  function SaturatingSub(a: nat, b: nat): (r: nat)
    ensures a >= b ==> r + b == a
    ensures a < b ==> r == 0
  {
    if a >= b then a - b else 0
  }

  /** Free VRAM: total minus used, never below zero. */
  function AvailableMb(info: GpuInfo): nat
  {
    SaturatingSub(info.vramTotalMb, info.vramUsedMb)
  }

  /** Whether `requiredMb` fits in the free VRAM. */
  function HasSufficientVram(info: GpuInfo, requiredMb: nat): (r: bool)
    ensures r <==> requiredMb == 0 || info.vramUsedMb + requiredMb <= info.vramTotalMb
  {
    AvailableMb(info) >= requiredMb
  }

  /** Tile edge for a card with `totalMb` of VRAM. */
  function TileTier(totalMb: nat): (t: nat)
    ensures t in {192, 256, 512, 768, 1024, 1536}
  {
    if totalMb <= 2048 then 192
    else if totalMb <= 4096 then 256
    else if totalMb <= 6144 then 512
    else if totalMb <= 8192 then 768
    else if totalMb <= 16384 then 1024
    else 1536
  }

  /** A card with more VRAM never gets a smaller tile tier. */
  lemma TileTierMonotone(a: nat, b: nat)
    requires a <= b
    ensures TileTier(a) <= TileTier(b)
  {
  }

  /** Tile edge for a card: 256 when less than 512 MiB is free, otherwise the tier of its total VRAM. */
  function RecommendedTileSize(info: GpuInfo): (t: nat)
    ensures 192 <= t <= 1536 && t % 64 == 0
    ensures AvailableMb(info) < 512 ==> t == 256
  {
    if AvailableMb(info) < 512 then 256 else TileTier(info.vramTotalMb)
  }

  /** Two cards with enough free memory and the same usage: the larger card gets at least the tile of the smaller. */
  lemma RecommendedTileGrowsWithCard(small: GpuInfo, large: GpuInfo)
    requires AvailableMb(small) >= 512 && AvailableMb(large) >= 512
    requires small.vramTotalMb <= large.vramTotalMb
    ensures RecommendedTileSize(small) <= RecommendedTileSize(large)
  {
    TileTierMonotone(small.vramTotalMb, large.vramTotalMb);
  }

  /**
   * The low-memory fallback is not the smallest tile: on a card of at most
   * 2 GiB, using more memory moves the tile from 192 up to 256.
   */
  lemma LowMemoryFallbackAboveSmallestTier()
    ensures RecommendedTileSize(GpuInfo("", 0, 2048, Unknown, "", false)) == 192
    ensures RecommendedTileSize(GpuInfo("", 1800, 2048, Unknown, "", false)) == 256
  {
  }

  /** Batch size for `availableMb` of free VRAM. */
  function BatchTier(availableMb: nat): (b: nat)
    ensures b in {1, 2, 4}
  {
    if availableMb <= 6144 then 1 else if availableMb <= 12288 then 2 else 4
  }

  lemma BatchTierMonotone(a: nat, b: nat)
    requires a <= b
    ensures BatchTier(a) <= BatchTier(b)
  {
  }

  /** Used VRAM assumed by the batch policy: half the card when a known vendor reports none. */
  function AssumedUsedMb(info: GpuInfo): (u: nat)
    ensures info.vramUsedMb != 0 || info.vendor == Unknown ==> u == info.vramUsedMb
    ensures info.vramUsedMb == 0 && info.vendor != Unknown ==> 2 * u <= info.vramTotalMb < 2 * u + 2
  {
    if info.vramUsedMb == 0 && info.vendor != Unknown then info.vramTotalMb / 2 else info.vramUsedMb
  }

  /** Batch size for a card: the tier of its free VRAM, with the usage AssumedUsedMb gives. */
  function RecommendedBatchSize(info: GpuInfo): (b: nat)
    ensures b in {1, 2, 4}
  {
    BatchTier(SaturatingSub(info.vramTotalMb, AssumedUsedMb(info)))
  }

  /**
   * A known card that reports no usage is treated as half full: it gets the
   * batch of a card with the upper half of its VRAM free, and at most the
   * batch of the same card reporting any usage up to half.
   */
  lemma BatchAssumesHalfUsed(info: GpuInfo, used: nat)
    requires info.vramUsedMb == 0 && info.vendor != Unknown
    requires 0 < used <= info.vramTotalMb / 2
    ensures RecommendedBatchSize(info) == BatchTier(info.vramTotalMb - info.vramTotalMb / 2)
    ensures RecommendedBatchSize(info) <= RecommendedBatchSize(info.(vramUsedMb := used))
  {
    BatchTierMonotone(info.vramTotalMb - info.vramTotalMb / 2, info.vramTotalMb - used);
  }

  // ---------------------------------------------------------------------
  // Command-line output parsing

  /** `v` is the number `field` holds, or 0 when `field` is not an unsigned 64-bit number. */
  predicate ParsedOrZero(field: string, v: nat)
  {
    match ParseU64(field)
    case Some(n) => v == n
    case None => v == 0
  }

  const NVIDIA_SMI_METHOD: string := "nvidia-smi (CLI)"
  const WMI_CLI_METHOD: string := "WMI (CLI)"

  /**
   * A line "name, used, total" of nvidia-smi: the trimmed text split at
   * commas, at least three fields, the name trimmed and each memory field
   * parsed as an unsigned number, 0 when it does not parse.
   */
  function ParseNvidiaSmi(output: string): (r: Errors.AppResult<GpuInfo>)
    ensures r.Err? <==> |Split(Trim(output), ',')| < 3
    ensures r.Err? ==> r.error == Errors.Unknown("Invalid nvidia-smi output")
    ensures r.Ok? ==> r.value.vendor == Nvidia && !r.value.isNpu && r.value.detectionMethod == NVIDIA_SMI_METHOD
                      && ',' !in r.value.name
                      && r.value.vramUsedMb < U64_LIMIT && r.value.vramTotalMb < U64_LIMIT
    ensures r.Ok? ==> var parts := Split(Trim(output), ',');
                      r.value.name == Trim(parts[0])
                      && ParsedOrZero(Trim(parts[1]), r.value.vramUsedMb)
                      && ParsedOrZero(Trim(parts[2]), r.value.vramTotalMb)
  {
    var parts := Split(Trim(output), ',');
    if |parts| < 3 then Errors.Err(Errors.Unknown("Invalid nvidia-smi output"))
    else
      Errors.Ok(GpuInfo(Trim(parts[0]), ParseU64OrZero(Trim(parts[1])), ParseU64OrZero(Trim(parts[2])),
                        Nvidia, NVIDIA_SMI_METHOD, false))
  }

  /**
   * A line "name,total" of the WMI query the AMD and Intel fallbacks run:
   * at least two fields, the name trimmed, total VRAM parsed (0 when it does
   * not parse) and used VRAM reported as 0.  `brand` names the vendor in the
   * error message.
   */
  function ParseWmiCli(output: string, vendor: GpuVendor, brand: string): (r: Errors.AppResult<GpuInfo>)
    ensures r.Err? <==> |Split(Trim(output), ',')| < 2
    ensures r.Err? ==> r.error == Errors.Unknown("Invalid " + brand + " output")
    ensures r.Ok? ==> r.value.vendor == vendor && r.value.vramUsedMb == 0 && !r.value.isNpu
                      && r.value.detectionMethod == WMI_CLI_METHOD && ',' !in r.value.name
    ensures r.Ok? ==> var parts := Split(Trim(output), ',');
                      r.value.name == Trim(parts[0]) && ParsedOrZero(Trim(parts[1]), r.value.vramTotalMb)
  {
    var parts := Split(Trim(output), ',');
    if |parts| < 2 then Errors.Err(Errors.Unknown("Invalid " + brand + " output"))
    else Errors.Ok(GpuInfo(Trim(parts[0]), 0, ParseU64OrZero(Trim(parts[1])), vendor, WMI_CLI_METHOD, false))
  }

  function ParseAmdCli(output: string): Errors.AppResult<GpuInfo>
  {
    ParseWmiCli(output, Amd, "AMD")
  }

  function ParseIntelCli(output: string): Errors.AppResult<GpuInfo>
  {
    ParseWmiCli(output, Intel, "Intel")
  }

  /** A name the parsers give back as it is: no comma and no whitespace at either end. */
  predicate PlainName(name: string)
  {
    name != [] && ',' !in name && !IsWhitespace(name[0]) && !IsWhitespace(name[|name| - 1])
  }

  /** The decimal digits of a number are trimmed and parsed back to the number. */
  lemma ParseRendered(n: nat)
    requires n < U64_LIMIT
    ensures Trim(NatToString(n)) == NatToString(n)
    ensures Trim([' '] + NatToString(n)) == NatToString(n)
    ensures ParseU64OrZero(NatToString(n)) == n
    ensures ',' !in NatToString(n)
  {
    var d := NatToString(n);
    DigitsOnly(d);
    TrimmedAlready(d);
    TrimLeadingSpace(d);
    assert ParseU64(d) == Errors.Some(n);
  }

  /** A string of digits has no whitespace at its ends and no comma. */
  lemma DigitsOnly(d: string)
    requires d != [] && forall i | 0 <= i < |d| :: IsDigit(d[i])
    ensures !IsWhitespace(d[0]) && !IsWhitespace(d[|d| - 1]) && ',' !in d
  {
    assert IsDigit(d[0]) && IsDigit(d[|d| - 1]);
  }

  /** A line of comma-separated fields splits back into those fields. */
  lemma SplitFields(fields: seq<string>, line: string)
    requires |fields| >= 1 && forall k | 0 <= k < |fields| :: ',' !in fields[k]
    requires line == Join(fields, ',')
    ensures Split(line, ',') == fields
  {
    SplitJoin(fields, ',');
  }

  /** Three comma-free fields written with commas between them split back into the three. */
  lemma ThreeFields(a: string, b: string, c: string, line: string)
    requires ',' !in a && ',' !in b && ',' !in c
    requires |b| > 0 && |c| > 0 && b[0] == ' ' && c[0] == ' '
    requires line == a + ", " + b[1..] + ", " + c[1..]
    ensures Split(line, ',') == [a, b, c]
  {
    assert Join([c], ',') == c;
    assert Join([b, c], ',') == b + [','] + c;
    assert line == a + [','] + (b + [','] + c);
    SplitFields([a, b, c], line);
  }

  /** nvidia-smi's line for a card, as its CSV query prints it, parses back to that card. */
  lemma NvidiaSmiRoundTrip(name: string, used: nat, total: nat)
    requires PlainName(name) && used < U64_LIMIT && total < U64_LIMIT
    ensures ParseNvidiaSmi(name + ", " + NatToString(used) + ", " + NatToString(total))
            == Errors.Ok(GpuInfo(name, used, total, Nvidia, NVIDIA_SMI_METHOD, false))
  {
    var u := NatToString(used);
    var t := NatToString(total);
    var line := name + ", " + u + ", " + t;
    ParseRendered(used);
    ParseRendered(total);
    var f1 := [' '] + u;
    var f2 := [' '] + t;
    ThreeFields(name, f1, f2, line);
    DigitsOnly(t);
    assert line[0] == name[0] && line[|line| - 1] == t[|t| - 1];
    TrimmedAlready(line);
    TrimmedAlready(name);
  }

  /** Two comma-free fields written with a comma between them split back into the two. */
  lemma TwoFields(a: string, b: string, line: string)
    requires ',' !in a && ',' !in b
    requires line == a + "," + b
    ensures Split(line, ',') == [a, b]
  {
    assert Join([b], ',') == b;
    assert line == a + [','] + Join([a, b][1..], ',');
    SplitFields([a, b], line);
  }

  /** The WMI query's line for a card parses back to that card, with no usage reported. */
  lemma WmiCliRoundTrip(name: string, total: nat, vendor: GpuVendor, brand: string)
    requires PlainName(name) && total < U64_LIMIT
    ensures ParseWmiCli(name + "," + NatToString(total), vendor, brand)
            == Errors.Ok(GpuInfo(name, 0, total, vendor, WMI_CLI_METHOD, false))
  {
    var t := NatToString(total);
    var line := name + "," + t;
    ParseRendered(total);
    DigitsOnly(t);
    assert line[0] == name[0] && line[|line| - 1] == t[|t| - 1];
    TrimmedAlready(line);
    TwoFields(name, t, line);
    TrimmedAlready(name);
    var parts := Split(Trim(line), ',');
    assert parts == [name, t];
    assert Trim(parts[0]) == name && ParseU64OrZero(Trim(parts[1])) == total;
  }
}
