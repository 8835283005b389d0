/** GPU detection for the processing back end (`GPUInfo`): the platform's
    display adapters are read from tool output (WMI controllers on Windows,
    `lspci -nn` on Linux, `system_profiler` on macOS), each adapter gets a
    vendor from its PCI vendor id, the vendor's H.264 encoder, an amount of
    video memory (from a vendor tool when unknown), and the largest Whisper
    speech model that memory allows. Tool output and the platform name are
    inputs; a tool that is missing or fails is an absent output. */
module GpuInfo {
  import opened Common
  import opened Strings
  import opened PyString

  /** The Python exceptions a parser or the update loop can raise. */
  datatype PyError = AttributeError | ValueError

  // ---------------------------------------------------------------- text helpers

  /** `s.split(sep)[1]` when `sep` occurs in `s`. */
  function AfterFirst(s: string, sep: string): string
    requires |sep| > 0 && Contains(s, sep)
  {
    SplitSecond(s, sep);
    Split(s, sep)[1]
  }

  /** A prefix of a text that does not contain `p` does not contain it either. */
  lemma PrefixFree(x: string, v: string, p: string)
    requires StartsWith(x, v) && !Contains(x, p)
    ensures !Contains(v, p)
  {
    if Contains(v, p) {
      var j := IndexOf(v, p).value;
      assert x[..|v|] == v;
      OccursInPrefix(x, p, |v|, j);
    }
  }

  /** The first piece of a split is a prefix of the text, followed in the
      text by the separator unless it is all of it, and has no separator. */
  lemma FirstPiece(s: string, sep: string)
    requires |sep| > 0
    ensures var x := Split(s, sep)[0];
      StartsWith(s, x) && !Contains(x, sep) && (x == s || OccursAt(s, sep, |x|))
  {
    SplitFirst(s, sep);
    SplitPiecesFree(s, sep);
  }

  // ---------------------------------------------------------------- PNP ids

  /** The vendor and device ids of an adapter; `None` is Python's `None`. */
  datatype Ids = Ids(vendorId: Option<string>, deviceId: Option<string>)

  /** `pnp.split(marker)[1].split("&")[0]`. */
  function IdAfter(pnp: string, marker: string): string
    requires |marker| > 0 && Contains(pnp, marker)
  {
    Split(AfterFirst(pnp, marker), "&")[0]
  }

  /** `extract_ids(pnp_device_id)`. */
  function ExtractIds(pnp: string): (r: Ids)
    ensures r.vendorId.Some? <==> Contains(pnp, "VEN_") && Contains(pnp, "DEV_")
    ensures r.deviceId.Some? <==> Contains(pnp, "VEN_") && Contains(pnp, "DEV_")
  {
    if Contains(pnp, "VEN_") && Contains(pnp, "DEV_") then
      Ids(Some(IdAfter(pnp, "VEN_")), Some(IdAfter(pnp, "DEV_")))
    else Ids(None, None)
  }

  /** An extracted id is the text right after the marker's first occurrence,
      stopped by the first `&`, by the marker's next occurrence, or by the
      end; it contains neither. */
  lemma IdAfterIsDelimited(pnp: string, marker: string)
    requires |marker| > 0 && Contains(pnp, marker)
    ensures var rest := pnp[IndexOf(pnp, marker).value + |marker|..];
      var id := IdAfter(pnp, marker);
      StartsWith(rest, id) && !Contains(id, "&") && !Contains(id, marker) &&
      (id == rest || OccursAt(rest, "&", |id|) || OccursAt(rest, marker, |id|))
  {
    var i := IndexOf(pnp, marker).value;
    var rest := pnp[i + |marker|..];
    assert AfterFirst(pnp, marker) == Split(rest, marker)[0] by {
      SplitSecond(pnp, marker);
    }
    PieceOfPiece(rest, marker);
  }

  /** The first `&`-piece of the first `marker`-piece of `rest` is a prefix of
      `rest` holding neither, followed in `rest` by one of them or by the end. */
  lemma PieceOfPiece(rest: string, marker: string)
    requires |marker| > 0
    ensures var id := Split(Split(rest, marker)[0], "&")[0];
      StartsWith(rest, id) && !Contains(id, "&") && !Contains(id, marker) &&
      (id == rest || OccursAt(rest, "&", |id|) || OccursAt(rest, marker, |id|))
  {
    var x := Split(rest, marker)[0];
    var id := Split(x, "&")[0];
    FirstPiece(rest, marker);
    FirstPiece(x, "&");
    PrefixFree(x, id, marker);
    assert rest[..|x|] == x;
    assert x[..|id|] == id;
    assert StartsWith(rest, id) by {
      assert rest[..|id|] == x[..|id|];
    }
    if id != x {
      assert OccursAt(x, "&", |id|);
      assert rest[|id|..|id| + 1] == x[|id|..|id| + 1];
    }
  }

  // ---------------------------------------------------------------- tables

  /** `vendor_map`: PCI vendor ids to vendor names. */
  const VendorMap: map<string, string> :=
    map["10DE" := "NVIDIA", "1002" := "AMD", "8086" := "Intel", "106B" := "Apple"]

  /** `codecs`: vendors to their H.264 encoders. */
  const Codecs: map<string, string> :=
    map["NVIDIA" := "h264_nvenc", "AMD" := "h264_amf", "Intel" := "h264_qsv",
        "Apple" := "h264_videotoolbox", "Unknown" := "libx264"]

  /** `vendor_map.get(id, "Unknown")`. */
  function VendorName(id: string): string {
    if id in VendorMap then VendorMap[id] else "Unknown"
  }

  /** `codecs.get(vendor, "libx264")`. */
  function CodecFor(vendor: string): string {
    if vendor in Codecs then Codecs[vendor] else "libx264"
  }

  /** Every vendor the id table yields has an encoder of its own; an unknown
      id gives vendor `Unknown` and the software encoder `libx264`. */
  lemma TablesAgree(id: string)
    ensures VendorName(id) in Codecs
    ensures id !in VendorMap ==> VendorName(id) == "Unknown" && CodecFor(VendorName(id)) == "libx264"
    ensures id == "10DE" ==> CodecFor(VendorName(id)) == "h264_nvenc"
    ensures id == "1002" ==> CodecFor(VendorName(id)) == "h264_amf"
    ensures id == "8086" ==> CodecFor(VendorName(id)) == "h264_qsv"
    ensures id == "106B" ==> CodecFor(VendorName(id)) == "h264_videotoolbox"
  {
  }

  // ---------------------------------------------------------------- Whisper model

  /** `whisper_models`: memory thresholds in MB and models, largest first. */
  const WhisperModels: seq<(int, string)> :=
    [(10000, "large"), (6000, "turbo"), (5000, "medium"), (2000, "small"), (1000, "base"), (0, "tiny")]

  predicate Descending(models: seq<(int, string)>) {
    forall a, b :: 0 <= a < b < |models| ==> models[a].0 > models[b].0
  }

  /** The index of the first entry whose threshold `vram` reaches, or the
      length when there is none. */
  function FirstFit(models: seq<(int, string)>, vram: int): (k: nat)
    ensures k <= |models|
    ensures k < |models| ==> models[k].0 <= vram
    ensures forall j :: 0 <= j < k ==> models[j].0 > vram
  {
    if models == [] then 0
    else if vram >= models[0].0 then 0
    else 1 + FirstFit(models[1..], vram)
  }

  /** `get_best_whisper_model(vram)`. */
  function BestWhisperModel(vram: int): string {
    var k := FirstFit(WhisperModels, vram);
    if k < |WhisperModels| then WhisperModels[k].1 else "tiny"
  }

  /** In a table sorted by descending threshold, the first fit has the
      largest threshold that `vram` reaches. */
  lemma FirstFitIsLargest(models: seq<(int, string)>, vram: int, j: nat)
    requires Descending(models) && j < |models| && models[j].0 <= vram
    ensures FirstFit(models, vram) <= j
    ensures models[FirstFit(models, vram)].0 >= models[j].0
  {
  }

  /** More memory never selects a later (smaller) entry. */
  lemma {:induction false} FirstFitMonotone(models: seq<(int, string)>, v1: int, v2: int)
    requires v1 <= v2
    ensures FirstFit(models, v2) <= FirstFit(models, v1)
  {
    if models != [] && v2 < models[0].0 {
      FirstFitMonotone(models[1..], v1, v2);
    }
  }

  /** The model for an amount of memory is the largest model it reaches:
      10000 MB and more give `large`, less than 1000 (negative amounts too)
      give `tiny`. */
  lemma WhisperModelByMemory(vram: int)
    ensures vram >= 10000 ==> BestWhisperModel(vram) == "large"
    ensures 6000 <= vram < 10000 ==> BestWhisperModel(vram) == "turbo"
    ensures 5000 <= vram < 6000 ==> BestWhisperModel(vram) == "medium"
    ensures 2000 <= vram < 5000 ==> BestWhisperModel(vram) == "small"
    ensures 1000 <= vram < 2000 ==> BestWhisperModel(vram) == "base"
    ensures vram < 1000 ==> BestWhisperModel(vram) == "tiny"
  {
    var m := WhisperModels;
    if vram >= 10000 {
      FirstFitExact(m, vram, 0);
    } else if vram >= 6000 {
      FirstFitExact(m, vram, 1);
    } else if vram >= 5000 {
      FirstFitExact(m, vram, 2);
    } else if vram >= 2000 {
      FirstFitExact(m, vram, 3);
    } else if vram >= 1000 {
      FirstFitExact(m, vram, 4);
    } else {
      FirstFitCases(m, vram);
    }
  }

  /** The table is sorted, and more memory never selects a model of a
      lower threshold. */
  lemma WhisperModelMonotone(vram: int, more: int)
    requires vram <= more
    ensures Descending(WhisperModels)
    ensures FirstFit(WhisperModels, more) <= FirstFit(WhisperModels, vram)
  {
    var m := WhisperModels;
    assert m[0].0 == 10000 && m[1].0 == 6000 && m[2].0 == 5000;
    assert m[3].0 == 2000 && m[4].0 == 1000 && m[5].0 == 0;
    FirstFitMonotone(m, vram, more);
  }

  /** The first entry `vram` reaches is the first fit. */
  lemma {:induction false} FirstFitExact(models: seq<(int, string)>, vram: int, k: nat)
    requires k < |models| && models[k].0 <= vram
    requires forall j :: 0 <= j < k ==> models[j].0 > vram
    ensures FirstFit(models, vram) == k
  {
    if k > 0 {
      FirstFitExact(models[1..], vram, k - 1);
    }
  }

  /** Below every threshold but the last, the first fit is the last entry
      or no entry at all. */
  lemma FirstFitCases(models: seq<(int, string)>, vram: int)
    requires |models| >= 1
    requires forall j :: 0 <= j < |models| - 1 ==> models[j].0 > vram
    ensures FirstFit(models, vram) >= |models| - 1
  {
  }

  // ---------------------------------------------------------------- video memory tools

  /** What the memory tools report: the text output of `nvidia-smi` and
      `rocm-smi`, the `DRAM.total` value of `intel_gpu_top -J` as an integer,
      and the machine's total memory in bytes. `None` is a tool that is
      missing or fails. */
  datatype ToolOutputs = ToolOutputs(nvidiaSmi: Option<string>, rocmSmi: Option<string>,
                                     intelDramTotal: Option<int>, totalRamBytes: Option<nat>)

  /** `_get_vram_nvidia`: the first line of the output as an integer; any error gives 0. */
  function NvidiaVram(output: Option<string>): int {
    match output
    case None => 0
    case Some(text) => ParseInt(Split(Strip(text), "\n")[0]).GetOr(0)
  }

  /** `_get_vram_amd` on the output's lines: the first line mentioning
      `Total` gives the number after its last `:`, with ` MiB` removed; an
      unreadable number or no such line gives 0. */
  function AmdTotal(lines: seq<string>): int {
    if lines == [] then 0
    else if Contains(lines[0], "Total") then
      ParseInt(Replace(Strip(LastPiece(lines[0], ":")), " MiB", "")).GetOr(0)
    else AmdTotal(lines[1..])
  }

  function AmdVram(output: Option<string>): int {
    match output
    case None => 0
    case Some(text) => AmdTotal(Split(text, "\n"))
  }

  /** `_get_vram_apple`: half the machine's memory, in whole MB. */
  function AppleVram(totalRamBytes: Option<nat>): int {
    match totalRamBytes
    case None => 0
    case Some(b) => b / (1024 * 1024 * 2)
  }

  /** `get_vram_with_tool(vendor)`. */
  function VramWithTool(vendor: string, tools: ToolOutputs): int {
    if vendor == "NVIDIA" then NvidiaVram(tools.nvidiaSmi)
    else if vendor == "AMD" then AmdVram(tools.rocmSmi)
    else if vendor == "Intel" then tools.intelDramTotal.GetOr(0)
    else if vendor == "Apple" then AppleVram(tools.totalRamBytes)
    else 0
  }

  /** A vendor without a memory tool gets 0, whatever the tools report. */
  lemma NoToolGivesZero(vendor: string, tools: ToolOutputs)
    requires vendor !in {"NVIDIA", "AMD", "Intel", "Apple"}
    ensures VramWithTool(vendor, tools) == 0
  {
  }

  /** Apple's share is half the machine's memory, rounded down to whole MB. */
  lemma AppleGetsHalfMemory(b: nat)
    ensures AppleVram(Some(b)) * 2097152 <= b < (AppleVram(Some(b)) + 1) * 2097152
  {
  }

  /** Lines before the first `Total` line are skipped. */
  lemma {:induction false} SkipNoTotal(skipped: seq<string>, rest: seq<string>)
    requires forall k :: 0 <= k < |skipped| ==> !Contains(skipped[k], "Total")
    ensures AmdTotal(skipped + rest) == AmdTotal(rest)
  {
    if skipped != [] {
      var s := skipped + rest;
      assert s[0] == skipped[0] && !Contains(s[0], "Total");
      assert AmdTotal(s) == AmdTotal(s[1..]);
      assert s[1..] == skipped[1..] + rest;
      assert forall k :: 0 <= k < |skipped| - 1 ==> skipped[1..][k] == skipped[k + 1];
      SkipNoTotal(skipped[1..], rest);
    } else {
      assert skipped + rest == rest;
    }
  }

  // ---------------------------------------------------------------- adapter records

  /** One adapter's dictionary. A field that is `None` is a key the
      dictionary does not have, except for the ids, where it is the value
      `None`: every parser sets both id keys. */
  datatype Gpu = Gpu(name: string, vendorId: Option<string>, deviceId: Option<string>,
                     vendor: Option<string>, codec: Option<string>, cores: Option<string>,
                     vram: Option<int>, whisperModel: Option<string>)

  /** The body of the update loop of `get_gpu_info` for one adapter, reading
      a `None` vendor id as an empty one: the vendor and its encoder from the
      upper-cased vendor id, memory from the vendor's tool when there is none
      or it is 0, and the Whisper model for that memory. */
  function UpdatedGpu(g: Gpu, tools: ToolOutputs): (r: Gpu)
    ensures r.vendor == Some(VendorName(Upper(g.vendorId.GetOr(""))))
    ensures r.codec == Some(CodecFor(r.vendor.value))
    ensures r.vram.Some? && r.whisperModel == Some(BestWhisperModel(r.vram.value))
    ensures g.vram.Some? && g.vram.value != 0 ==> r.vram == g.vram
    ensures (g.vram.None? || g.vram == Some(0)) ==> r.vram == Some(VramWithTool(r.vendor.value, tools))
    ensures r.name == g.name && r.vendorId == g.vendorId && r.deviceId == g.deviceId && r.cores == g.cores
  {
    var vendor := VendorName(Upper(g.vendorId.GetOr("")));
    var vram := if g.vram.None? || g.vram.value == 0 then VramWithTool(vendor, tools) else g.vram.value;
    g.(vendor := Some(vendor), codec := Some(CodecFor(vendor)), vram := Some(vram),
       whisperModel := Some(BestWhisperModel(vram)))
  }

  /** The same body as written: `gpu.get("vendor_id", "").upper()` finds the
      key present with the value `None`, and `None.upper()` raises. */
  function UpdatedGpuAsWritten(g: Gpu, tools: ToolOutputs): Result<Gpu, PyError> {
    if g.vendorId.None? then Failure(AttributeError) else Success(UpdatedGpu(g, tools))
  }

  /** The update loop of `get_gpu_info`: every adapter is updated in place. */
  method UpdateGpus(gpus: seq<Gpu>, tools: ToolOutputs) returns (updated: seq<Gpu>)
    ensures |updated| == |gpus|
    ensures forall k :: 0 <= k < |gpus| ==> updated[k] == UpdatedGpu(gpus[k], tools)
    ensures forall k :: 0 <= k < |gpus| ==>
      updated[k].vram.Some? && updated[k].whisperModel == Some(BestWhisperModel(updated[k].vram.value))
    ensures updated == UpdatedAll(gpus, tools)
  {
    updated := gpus;
    var i := 0;
    while i < |updated|
      invariant 0 <= i <= |gpus| && |updated| == |gpus|
      invariant forall k :: 0 <= k < i ==> updated[k] == UpdatedGpu(gpus[k], tools)
      invariant forall k :: i <= k < |gpus| ==> updated[k] == gpus[k]
    {
      updated := updated[i := UpdatedGpu(updated[i], tools)];
      i := i + 1;
    }
  }

  // ---------------------------------------------------------------- Windows

  /** A WMI `Win32_VideoController`: its name and PNP device id. */
  datatype Controller = Controller(name: string, pnpDeviceId: string)

  /** The record `_get_windows_gpu_info` builds for one controller. */
  function WindowsRecord(c: Controller): Gpu {
    var ids := ExtractIds(c.pnpDeviceId);
    Gpu(c.name, ids.vendorId, ids.deviceId, None, None, None, None, None)
  }

  /** `_get_windows_gpu_info`; `None` is a missing WMI library. */
  method WindowsGpus(controllers: Option<seq<Controller>>) returns (gpuList: seq<Gpu>)
    ensures controllers.None? ==> gpuList == []
    ensures controllers.Some? ==> |gpuList| == |controllers.value|
    ensures controllers.Some? ==>
      forall k :: 0 <= k < |gpuList| ==> gpuList[k] == WindowsRecord(controllers.value[k])
    ensures gpuList == WindowsRecords(controllers)
  {
    gpuList := [];
    if controllers.None? {
      return;
    }
    var cs := controllers.value;
    for i := 0 to |cs|
      invariant |gpuList| == i
      invariant forall k :: 0 <= k < i ==> gpuList[k] == WindowsRecord(cs[k])
    {
      gpuList := gpuList + [WindowsRecord(cs[i])];
    }
  }

  /** A controller whose PNP id lacks `VEN_` (a software adapter such as
      `ROOT\BASICRENDER\0000`) gets the vendor id `None`; the update as
      written then raises, while reading it as empty gives the vendor
      `Unknown` and the encoder `libx264`. */
  lemma MissingVendorIdBreaksUpdate(c: Controller, tools: ToolOutputs)
    requires !Contains(c.pnpDeviceId, "VEN_")
    ensures WindowsRecord(c).vendorId.None?
    ensures UpdatedGpuAsWritten(WindowsRecord(c), tools) == Failure(AttributeError)
    ensures UpdatedGpu(WindowsRecord(c), tools).vendor == Some("Unknown")
    ensures UpdatedGpu(WindowsRecord(c), tools).codec == Some("libx264")
  {
    assert Upper("") == "";
  }

  // ---------------------------------------------------------------- Linux

  /** A line of `lspci -nn` that describes a display adapter. */
  predicate IsDisplayLine(line: string) {
    Contains(line, "VGA") || Contains(line, "3D controller")
  }

  /** The ids in the line's last `[...]` when that holds exactly one `:`,
      else `Unknown` for both. */
  function BracketIds(line: string): (string, string) {
    if Contains(line, "[") && Contains(line, "]") then
      var content := Split(LastPiece(line, "["), "]")[0];
      if Contains(content, ":") then
        var vendorDevice := Split(content, ":");
        if |vendorDevice| == 2 then (vendorDevice[0], vendorDevice[1]) else ("Unknown", "Unknown")
      else ("Unknown", "Unknown")
    else ("Unknown", "Unknown")
  }

  /** The record `_get_linux_gpu_info` builds for a display line: the words
      but the first two and the last as its name, and the bracketed ids. */
  function LinuxRecord(line: string): Gpu {
    var ids := BracketIds(line);
    Gpu(Join(DropTwoAndLast(Words(line)), " "), Some(ids.0), Some(ids.1), None, None, None, None, None)
  }

  /** The records for a sequence of lines: one per display line, in order. */
  function LinuxRecords(lines: seq<string>): seq<Gpu> {
    FilterMap(lines, IsDisplayLine, LinuxRecord)
  }

  /** `_get_linux_gpu_info`; `None` is an `lspci` that is missing or fails. */
  method LinuxGpus(output: Option<string>) returns (gpuList: seq<Gpu>)
    ensures output.None? ==> gpuList == []
    ensures output.Some? ==> gpuList == LinuxRecords(Split(output.value, "\n"))
    ensures gpuList == LinuxRecords(OutputLines(output))
  {
    gpuList := [];
    if output.None? {
      return;
    }
    var lines := Split(output.value, "\n");
    for i := 0 to |lines|
      invariant gpuList == LinuxRecords(lines[..i])
    {
      var line := lines[i];
      assert lines[..i + 1] == lines[..i] + [line];
      FilterMapConcat(lines[..i], [line], IsDisplayLine, LinuxRecord);
      LinuxRecordsPerLine(line);
      if IsDisplayLine(line) {
        gpuList := gpuList + [LinuxRecord(line)];
      }
    }
    assert lines[..|lines|] == lines;
  }

  /** Ids taken from brackets are the two sides of the last bracket's single
      `:`: rejoined they give the bracket's content, neither side holds a
      `:`, and that content holds no `[` or `]`. */
  lemma BracketIdsAreTheLastBracket(line: string)
    ensures var ids := BracketIds(line);
      ids != ("Unknown", "Unknown") ==>
        var content := Split(LastPiece(line, "["), "]")[0];
        ids.0 + ":" + ids.1 == content && !Contains(ids.0, ":") && !Contains(ids.1, ":") &&
        !Contains(content, "[") && !Contains(content, "]")
  {
    var ids := BracketIds(line);
    if ids != ("Unknown", "Unknown") {
      var last := LastPiece(line, "[");
      var content := Split(last, "]")[0];
      var vd := Split(content, ":");
      assert |vd| == 2 && ids == (vd[0], vd[1]);
      SplitJoin(content, ":");
      assert Join(vd, ":") == vd[0] + ":" + Join(vd[1..], ":");
      assert vd[1..] == [vd[1]];
      SplitPiecesFree(content, ":");
      FirstPiece(last, "]");
      SplitLast(line, "[");
      PrefixFree(last, content, "[");
    }
  }

  /** A display line gives one record and any other line none. */
  lemma LinuxRecordsPerLine(line: string)
    ensures LinuxRecords([line]) == if IsDisplayLine(line) then [LinuxRecord(line)] else []
  {
    assert [line][1..] == [];
  }

  // ---------------------------------------------------------------- macOS

  /** The `gpu_info` accumulator of `_get_mac_gpu_info`; `None` is a key it
      does not have. */
  datatype MacAcc = MacAcc(name: Option<string>, vendor: Option<string>, vendorId: Option<string>,
                           cores: Option<string>, vram: Option<int>)

  const EmptyAcc: MacAcc := MacAcc(None, None, None, None, None)

  /** The value after a line's last `:`, stripped. */
  function FieldValue(line: string): string {
    Strip(LastPiece(line, ":"))
  }

  /** The vendor id inside `Vendor: Name (0x10de)`: upper-cased, with a
      closing parenthesis and a leading `0X` removed. */
  function MacVendorId(piece: string): (r: string)
    ensures var v := Upper(StripChar(piece, ')'));
      if StartsWith(v, "0X") then "0X" + r == v else r == v
    ensures forall k :: 0 <= k < |r| ==> !('a' <= r[k] <= 'z')
    ensures r == [] || r[|r| - 1] != ')'
  {
    var vid := Upper(StripChar(piece, ')'));
    if StartsWith(vid, "0X") then vid[2..] else vid
  }

  /** The id in `Vendor: NVIDIA (0x10de)` is `10DE`. */
  lemma MacVendorIdExample(piece: string)
    requires piece == "0x10de)"
    ensures MacVendorId(piece) == "10DE"
  {
    var a := "0x10de";
    assert piece == a + [')'];
    StripOneTrailing(a, ')');
    UpperOfHexId(a);
    var v := "0X10DE";
    assert v[..2] == "0X" && v[2..] == "10DE";
  }

  lemma UpperOfHexId(a: string)
    requires a == "0x10de"
    ensures Upper(a) == "0X10DE"
  {
    var u := Upper(a);
    assert u[0] == '0' && u[1] == 'X' && u[2] == '1' && u[3] == '0' && u[4] == 'D' && u[5] == 'E';
  }

  /** The accumulator after one line, before the check for a complete record;
      an unreadable memory size raises `ValueError`. */
  function MacStep(acc: MacAcc, raw: string): Result<MacAcc, PyError> {
    var line := Strip(raw);
    if StartsWith(line, "Chipset Model:") then Success(acc.(name := Some(FieldValue(line))))
    else if StartsWith(line, "Vendor:") then
      var info := FieldValue(line);
      var withVendor := acc.(vendor := Some(Split(info, " (")[0]));
      Success(if Contains(info, "(") then withVendor.(vendorId := Some(MacVendorId(AfterFirst(info, "("))))
              else withVendor)
    else if StartsWith(line, "Total Number of Cores:") then Success(acc.(cores := Some(FieldValue(line))))
    else if StartsWith(line, "VRAM (Total):") then
      match ParseInt(Replace(FieldValue(line), " MB", ""))
      case None => Failure(ValueError)
      case Some(v) => Success(acc.(vram := Some(v)))
    else Success(acc)
  }

  /** The accumulator holds a name and a vendor. */
  predicate Complete(acc: MacAcc) {
    acc.name.Some? && acc.vendor.Some?
  }

  /** The record a complete accumulator gives. Its memory is not copied. */
  function MacRecord(acc: MacAcc): Gpu
    requires Complete(acc)
  {
    Gpu(acc.name.value, Some(acc.vendorId.GetOr("Unknown")), Some("Unknown"), Some(acc.vendor.value),
        Some("h264_videotoolbox"), Some(acc.cores.GetOr("Unknown")), None, None)
  }

  /** A way of taking one line into the accumulator. */
  type Step = (MacAcc, string) -> Result<MacAcc, PyError>

  /** The records of the remaining lines from accumulator `acc` on, taking
      each line in with `step`. */
  function RecordsWith(step: Step, acc: MacAcc, lines: seq<string>): Result<seq<Gpu>, PyError>
    decreases |lines|
  {
    if lines == [] then Success([])
    else
      match step(acc, lines[0])
      case Failure(e) => Failure(e)
      case Success(next) =>
        if Complete(next) then Prepend([MacRecord(next)], RecordsWith(step, EmptyAcc, lines[1..]))
        else RecordsWith(step, next, lines[1..])
  }

  /** The records of the macOS parser from accumulator `acc` on. */
  function MacRecords(acc: MacAcc, lines: seq<string>): Result<seq<Gpu>, PyError> {
    RecordsWith(MacStep, acc, lines)
  }

  /** Records found so far followed by those still to come; an error stays an error. */
  function Prepend(found: seq<Gpu>, r: Result<seq<Gpu>, PyError>): Result<seq<Gpu>, PyError> {
    match r
    case Failure(e) => Failure(e)
    case Success(s) => Success(found + s)
  }

  lemma PrependTwice(a: seq<Gpu>, b: seq<Gpu>, r: Result<seq<Gpu>, PyError>)
    ensures Prepend(a, Prepend(b, r)) == Prepend(a + b, r)
    ensures Prepend([], r) == r
  {
    match r
    case Failure(e) =>
    case Success(s) =>
      assert a + (b + s) == (a + b) + s;
      assert [] + s == s;
  }

  /** `_get_mac_gpu_info`; `None` is a `system_profiler` that is missing or
      fails. An unreadable memory size is not caught and propagates. */
  method MacGpus(output: Option<string>) returns (r: Result<seq<Gpu>, PyError>)
    ensures output.None? ==> r == Success([])
    ensures output.Some? ==> r == MacRecords(EmptyAcc, Split(output.value, "\n"))
  {
    if output.None? {
      return Success([]);
    }
    r := ParseLines(MacStep, Split(output.value, "\n"));
  }

  /** The loop of `_get_mac_gpu_info` over the lines, each taken in with `step`:
      a complete accumulator is emitted and reset. */
  method ParseLines(step: Step, lines: seq<string>) returns (r: Result<seq<Gpu>, PyError>)
    ensures r == RecordsWith(step, EmptyAcc, lines)
  {
    var gpuList: seq<Gpu> := [];
    var gpuInfo := EmptyAcc;
    var i := 0;
    assert lines[0..] == lines;
    PrependTwice([], [], RecordsWith(step, EmptyAcc, lines));
    while i < |lines|
      invariant 0 <= i <= |lines|
      invariant Prepend(gpuList, RecordsWith(step, gpuInfo, lines[i..])) == RecordsWith(step, EmptyAcc, lines)
    {
      var rest := lines[i..];
      assert rest[0] == lines[i] && rest[1..] == lines[i + 1..];
      var taken := step(gpuInfo, lines[i]);
      if taken.Failure? {
        assert RecordsWith(step, gpuInfo, rest) == Failure(taken.error);
        return Failure(taken.error);
      }
      gpuInfo := taken.value;
      if Complete(gpuInfo) {
        PrependTwice(gpuList, [MacRecord(gpuInfo)], RecordsWith(step, EmptyAcc, lines[i + 1..]));
        gpuList := gpuList + [MacRecord(gpuInfo)];
        gpuInfo := EmptyAcc;
      }
      i := i + 1;
    }
    assert lines[i..] == [];
    assert gpuList + [] == gpuList;
    r := Success(gpuList);
  }

  /** Every record the macOS parser emits has an unknown device id, no
      memory, the VideoToolbox encoder and a vendor, whatever the lines. */
  lemma {:induction false} RecordsShape(step: Step, acc: MacAcc, lines: seq<string>)
    decreases |lines|
    ensures RecordsWith(step, acc, lines).Success? ==>
      forall k :: 0 <= k < |RecordsWith(step, acc, lines).value| ==>
        var g := RecordsWith(step, acc, lines).value[k];
        g.deviceId == Some("Unknown") && g.vram.None? && g.codec == Some("h264_videotoolbox") && g.vendor.Some?
  {
    if lines != [] {
      match step(acc, lines[0])
      case Failure(e) =>
      case Success(next) =>
        if Complete(next) {
          RecordsShape(step, EmptyAcc, lines[1..]);
        } else {
          RecordsShape(step, next, lines[1..]);
        }
    }
  }

  lemma StartsWithDiffers(s: string, p: string, q: string, k: nat)
    requires k < |p| && k < |q| && p[k] != q[k] && StartsWith(s, p)
    ensures !StartsWith(s, q)
  {
    assert s[k] == p[k];
  }

  /** A memory line whose value is not a number raises `ValueError`. */
  lemma UnreadableMemoryRaises(acc: MacAcc, line: string)
    requires line == Strip(line) && StartsWith(line, "VRAM (Total):")
    requires ParseInt(Replace(FieldValue(line), " MB", "")).None?
    ensures MacStep(acc, line) == Failure(ValueError)
  {
    StartsWithDiffers(line, "VRAM (Total):", "Chipset Model:", 0);
    StartsWithDiffers(line, "VRAM (Total):", "Vendor:", 1);
    StartsWithDiffers(line, "VRAM (Total):", "Total Number of Cores:", 0);
  }

  /** A vendor line with an id in parentheses records the vendor's name and
      its upper-cased id without `0X`. */
  lemma VendorLineRecordsId(acc: MacAcc, line: string)
    requires line == Strip(line) && StartsWith(line, "Vendor:") && Contains(FieldValue(line), "(")
    ensures MacStep(acc, line).Success?
    ensures MacStep(acc, line).value.vendor == Some(Split(FieldValue(line), " (")[0])
    ensures MacStep(acc, line).value.vendorId == Some(MacVendorId(AfterFirst(FieldValue(line), "(")))
  {
    StartsWithDiffers(line, "Vendor:", "Chipset Model:", 0);
  }

  // ---------------------------------------------------------------- get_gpu_info

  /** Every adapter passed through the update of `get_gpu_info`, in order. */
  function UpdatedAll(gpus: seq<Gpu>, tools: ToolOutputs): seq<Gpu> {
    Map(gpus, g => UpdatedGpu(g, tools))
  }

  /** The Windows records: one per controller, or none without WMI. */
  function WindowsRecords(controllers: Option<seq<Controller>>): seq<Gpu> {
    if controllers.None? then [] else Map(controllers.value, WindowsRecord)
  }

  /** The lines of an optional tool output; a missing tool gives none. */
  function OutputLines(output: Option<string>): seq<string> {
    if output.None? then [] else Split(output.value, "\n")
  }

  /** `get_gpu_info()` for platform `system`, with the corrected reading of a
      `None` vendor id: the adapters of the platform's parser, each updated. */
  method GetGpuInfo(system: string, controllers: Option<seq<Controller>>, lspci: Option<string>,
                    profiler: Option<string>, tools: ToolOutputs)
    returns (r: Result<seq<Gpu>, PyError>)
    ensures system !in {"Windows", "Linux", "Darwin"} ==> r == Success([])
    ensures system == "Windows" ==> r == Success(UpdatedAll(WindowsRecords(controllers), tools))
    ensures system == "Linux" ==> r == Success(UpdatedAll(LinuxRecords(OutputLines(lspci)), tools))
    ensures system == "Darwin" && profiler.None? ==> r == Success([])
    ensures system == "Darwin" && profiler.Some? ==>
      var m := MacRecords(EmptyAcc, Split(profiler.value, "\n"));
      (m.Failure? ==> r == Failure(m.error)) && (m.Success? ==> r == Success(UpdatedAll(m.value, tools)))
    ensures r.Success? ==> forall k :: 0 <= k < |r.value| ==> Updated(r.value[k])
  {
    var gpuList: seq<Gpu> := [];
    if system == "Windows" {
      gpuList := WindowsGpus(controllers);
    } else if system == "Linux" {
      gpuList := LinuxGpus(lspci);
    } else if system == "Darwin" {
      var mac := MacGpus(profiler);
      if mac.Failure? {
        return Failure(mac.error);
      }
      gpuList := mac.value;
    }
    var updated := UpdateGpus(gpuList, tools);
    UpdatedAllShape(gpuList, tools);
    r := Success(updated);
  }

  /** An adapter as the update leaves it: with memory, the Whisper model for
      that memory, a vendor and the vendor's encoder. */
  predicate Updated(g: Gpu) {
    g.vram.Some? && g.whisperModel == Some(BestWhisperModel(g.vram.value)) &&
    g.vendor.Some? && g.codec == Some(CodecFor(g.vendor.value))
  }

  /** Every updated adapter has a memory size, the Whisper model for it, a
      vendor and that vendor's encoder. */
  lemma UpdatedAllShape(gpus: seq<Gpu>, tools: ToolOutputs)
    ensures |UpdatedAll(gpus, tools)| == |gpus|
    ensures forall k :: 0 <= k < |gpus| ==> Updated(UpdatedAll(gpus, tools)[k])
  {
  }
}
