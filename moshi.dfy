/**
 * Model of msh/models/moshi.py: the fixed architecture parameter sets of the
 * audio codec (SEANet encoder/decoder, split residual quantizer, projected
 * transformers) and of the language model, the checkpoint-format test
 * `_is_safetensors`, and the format dispatch performed by `get_encodec` and
 * `get_lm`.
 *
 * Module construction, tensor I/O and device placement happen in code that
 * is not part of this model; a loaded model is represented by the checkpoint
 * read it performs and, for the codec, its active codebook count.
 */
module Moshi {
  import opened Pathlib

  datatype Result<T, E> = Ok(value: T) | Err(error: E)

  // =====================================================================
  // Architecture parameter sets (floating-point entries are left out)

  const SAMPLE_RATE: nat := 24000

  /** The channel count and causality `get_encodec` passes to the codec itself. */
  const CODEC_CHANNELS: nat := 1
  const CODEC_CAUSAL: bool := true

  datatype SeanetConfig = SeanetConfig(
    channels: nat,
    dimension: nat,
    causal: bool,
    nFilters: nat,
    nResidualLayers: nat,
    activation: string,
    compress: nat,
    dilationBase: nat,
    disableNormOuterBlocks: nat,
    kernelSize: nat,
    residualKernelSize: nat,
    lastKernelSize: nat,
    norm: string,
    padMode: string,
    ratios: seq<nat>,
    trueSkip: bool)

  datatype QuantizerConfig = QuantizerConfig(
    dimension: nat,
    nQ: nat,
    bins: nat,
    inputDimension: nat,
    outputDimension: nat)

  datatype TransformerConfig = TransformerConfig(
    dModel: nat,
    numHeads: nat,
    numLayers: nat,
    causal: bool,
    context: nat,
    convLayout: bool,
    maxPeriod: nat,
    gating: string,
    norm: string,
    positionalEmbedding: string,
    dimFeedforward: nat,
    inputDimension: nat,
    outputDimensions: seq<nat>)

  /**
   * `hidden_scale` is 4.125, held exactly as a number of eighths (33 / 8);
   * `depformer_dim_feedforward` is `int(4.125 * 1024)`.
   */
  datatype LmConfig = LmConfig(
    dim: nat,
    textCard: nat,
    existingTextPaddingId: nat,
    nQ: nat,
    depQ: nat,
    card: nat,
    numHeads: nat,
    numLayers: nat,
    hiddenScaleEighths: nat,
    causal: bool,
    context: nat,
    maxPeriod: nat,
    gating: string,
    norm: string,
    positionalEmbedding: string,
    depformerDim: nat,
    depformerDimFeedforward: nat,
    depformerNumHeads: nat,
    depformerNumLayers: nat,
    depformerCausal: bool,
    depformerMultiLinear: bool,
    depformerContext: nat,
    depformerMaxPeriod: nat,
    depformerGating: string,
    depformerPosEmb: string,
    depformerWeightsPerStep: bool,
    delays: seq<nat>)

  /**
   * `seanet_kwargs`: a mono, causal encoder/decoder pair whose latent
   * dimension the other parameter sets read.
   */
  function SeanetKwargs(): (seanet: SeanetConfig)
    ensures seanet.channels == CODEC_CHANNELS && seanet.causal == CODEC_CAUSAL
    ensures seanet.dimension == 512
  {
    SeanetConfig(
      channels := 1, dimension := 512, causal := true, nFilters := 64,
      nResidualLayers := 1, activation := "ELU", compress := 2, dilationBase := 2,
      disableNormOuterBlocks := 0, kernelSize := 7, residualKernelSize := 3,
      lastKernelSize := 3, norm := "none", padMode := "constant",
      ratios := [8, 6, 5, 4], trueSkip := true)
  }

  /** `quantizer_kwargs`, whose projections read the SEANet dimension. */
  function QuantizerKwargs(seanet: SeanetConfig): (quantizer: QuantizerConfig)
    ensures quantizer.inputDimension == seanet.dimension == quantizer.outputDimension
    ensures CODEC_ACTIVE_CODEBOOKS <= quantizer.nQ
  {
    QuantizerConfig(
      dimension := 256, nQ := 32, bins := 2048,
      inputDimension := seanet.dimension, outputDimension := seanet.dimension)
  }

  /** `transformer_kwargs`, whose widths read the SEANet dimension. */
  function TransformerKwargs(seanet: SeanetConfig): (transformer: TransformerConfig)
    ensures transformer.dModel == seanet.dimension
    ensures transformer.inputDimension == transformer.dModel
    ensures transformer.outputDimensions == [transformer.dModel]
  {
    TransformerConfig(
      dModel := seanet.dimension, numHeads := 8, numLayers := 8, causal := true,
      context := 250, convLayout := true, maxPeriod := 10000, gating := "none",
      norm := "layer_norm", positionalEmbedding := "rope", dimFeedforward := 2048,
      inputDimension := seanet.dimension, outputDimensions := [seanet.dimension])
  }

  /** `int(x)` of the non-negative rational `num / den`: truncation toward zero. */
  function Truncate(num: nat, den: nat): (r: nat)
    requires den > 0
    ensures r * den <= num < r * den + den
  {
    num / den
  }

  /**
   * `lm_kwargs`, whose audio vocabulary reads the quantizer's `bins`: the
   * depformer resolves at most as many codebooks as the LM models, the delay
   * vector has one entry per audio codebook plus one, each 0 or 1 and the
   * first 0, and the depformer's feed-forward width is exactly
   * `hidden_scale * depformer_dim`.
   */
  function LmKwargs(quantizer: QuantizerConfig): (lm: LmConfig)
    ensures lm.card == quantizer.bins
    ensures lm.depQ <= lm.nQ
    ensures |lm.delays| == lm.nQ + 1 && lm.delays[0] == 0
    ensures forall i :: 0 <= i < |lm.delays| ==> lm.delays[i] <= 1
    ensures 8 * lm.depformerDimFeedforward == lm.hiddenScaleEighths * lm.depformerDim
  {
    LmConfig(
      dim := 4096, textCard := 32000, existingTextPaddingId := 3,
      nQ := 16, depQ := 8, card := quantizer.bins,
      numHeads := 32, numLayers := 32, hiddenScaleEighths := 33,
      causal := true, context := 3000, maxPeriod := 10000, gating := "silu",
      norm := "rms_norm_f32", positionalEmbedding := "rope",
      depformerDim := 1024, depformerDimFeedforward := Truncate(33 * 1024, 8),
      depformerNumHeads := 16, depformerNumLayers := 6, depformerCausal := true,
      depformerMultiLinear := true, depformerContext := 8,
      depformerMaxPeriod := 10000, depformerGating := "silu",
      depformerPosEmb := "none", depformerWeightsPerStep := true,
      delays := [0, 0, 1, 1, 1, 1, 1, 1, 1, 0, 1, 1, 1, 1, 1, 1, 1])
  }

  const SEANET: SeanetConfig := SeanetKwargs()
  const QUANTIZER: QuantizerConfig := QuantizerKwargs(SEANET)
  const TRANSFORMER: TransformerConfig := TransformerKwargs(SEANET)
  const LM: LmConfig := LmKwargs(QUANTIZER)

  /** The dimensions the parameter sets share, for any SEANet parameter set. */
  predicate DimensionsAgree(seanet: SeanetConfig, quantizer: QuantizerConfig,
                            transformer: TransformerConfig, lm: LmConfig)
  {
    && quantizer.inputDimension == seanet.dimension
    && quantizer.outputDimension == seanet.dimension
    && transformer.dModel == seanet.dimension
    && transformer.inputDimension == seanet.dimension
    && transformer.outputDimensions == [seanet.dimension]
    && lm.card == quantizer.bins
  }

  /** The dictionaries' cross-references hold whatever the SEANet entries are. */
  lemma CrossReferences(seanet: SeanetConfig)
    ensures var quantizer := QuantizerKwargs(seanet);
            DimensionsAgree(seanet, quantizer, TransformerKwargs(seanet), LmKwargs(quantizer))
  {
  }

  /** The shared values themselves, and the depformer's place inside the LM. */
  lemma ConfigurationValues()
    ensures DimensionsAgree(SEANET, QUANTIZER, TRANSFORMER, LM)
    ensures SEANET.dimension == 512 && QUANTIZER.bins == 2048 && LM.card == 2048
    ensures LM.depQ == 8 && LM.nQ == 16 && LM.depQ <= LM.nQ
    ensures LM.nQ <= QUANTIZER.nQ == 32
  {
  }

  /** `int(4.125 * 1024)` loses nothing: it is exactly `hidden_scale * depformer_dim`. */
  lemma DepformerFeedforwardExact()
    ensures LM.depformerDimFeedforward == 4224
    ensures 8 * LM.depformerDimFeedforward == LM.hiddenScaleEighths * LM.depformerDim
  {
  }

  /**
   * The delay vector: one entry per audio codebook plus one, all 0 or 1,
   * starting at 0, with the zero delays exactly at indices 0, 1 and 9.
   */
  lemma DelaysShape()
    ensures |LM.delays| == LM.nQ + 1 == 17
    ensures LM.delays[0] == 0
    ensures forall i :: 0 <= i < |LM.delays| ==> LM.delays[i] <= 1
    ensures forall i :: 0 <= i < |LM.delays| ==> (LM.delays[i] == 0 <==> i == 0 || i == 1 || i == 9)
  {
  }

  // =====================================================================
  // Checkpoint format classification (`_is_safetensors`)

  const SAFETENSORS_SUFFIXES: set<string> := {".safetensors", ".sft", ".sfts"}

  /**
   * `_is_safetensors`: whether the final path component carries one of the
   * three safetensors extensions as its last extension.  It holds exactly when
   * that component ends with one of them and has something before it; matching
   * is exact (case-sensitive) and only the last extension counts.
   */
  function IsSafetensors(filename: string): (b: bool)
    ensures b <==>
              || EndsProperly(Name(filename), ".safetensors")
              || EndsProperly(Name(filename), ".sft")
              || EndsProperly(Name(filename), ".sfts")
  {
    var name := Name(filename);
    assert Extension(".safetensors") && Extension(".sft") && Extension(".sfts");
    SuffixIs(name, ".safetensors");
    SuffixIs(name, ".sft");
    SuffixIs(name, ".sfts");
    Suffix(name) in SAFETENSORS_SUFFIXES
  }

  /** The directory part never matters: only the final component is examined. */
  lemma DirectoryIgnored(dir: string, file: string)
    requires SEP !in file && Meaningful(file)
    ensures IsSafetensors(dir + [SEP] + file) == IsSafetensors(file)
  {
    NameOfChild(dir, file);
    NameOfComponent(file);
  }

  /**
   * When a single component properly ends with an extension, the verdict is
   * whether that extension is one of the three: an earlier dot never counts.
   */
  lemma ComponentVerdict(file: string, ext: string)
    requires SEP !in file && Meaningful(file)
    requires Extension(ext) && EndsProperly(file, ext)
    ensures IsSafetensors(file) == (ext in SAFETENSORS_SUFFIXES)
  {
    NameOfComponent(file);
    SuffixIs(file, ext);
  }

  /** A name whose only dot is its first character has no suffix. */
  lemma DotfileRejected(file: string)
    requires SEP !in file && Meaningful(file)
    requires file[0] == DOT && DOT !in file[1..]
    ensures !IsSafetensors(file)
  {
    NameOfComponent(file);
    assert forall k :: 0 < k < |file| ==> file[k] in file[1..];
  }

  lemma SeveralDotsAccepted()
    ensures IsSafetensors("a.b.sfts")
  {
    assert "a.b.sfts"[3..] == ".sfts";
    ComponentVerdict("a.b.sfts", ".sfts");
  }

  lemma LaterExtensionRejected()
    ensures !IsSafetensors("ckpt.sft.bak")
  {
    assert "ckpt.sft.bak"[8..] == ".bak";
    ComponentVerdict("ckpt.sft.bak", ".bak");
  }

  lemma UpperCaseRejected()
    ensures !IsSafetensors("weights.SFT")
  {
    assert "weights.SFT"[7..] == ".SFT";
    ComponentVerdict("weights.SFT", ".SFT");
  }

  lemma BareDotfileRejected()
    ensures !IsSafetensors(".sft")
  {
    DotfileRejected(".sft");
  }

  /**
   * A dot inside a directory name is ignored: even a directory whose own name
   * would be accepted does not make an extension-less file inside it accepted.
   */
  lemma DirectoryDotIgnored(dir: string, file: string)
    requires IsSafetensors(dir)
    requires SEP !in file && Meaningful(file) && DOT !in file
    ensures !IsSafetensors(dir + [SEP] + file)
  {
    NameOfChild(dir, file);
    NoDotNoSuffix(file);
  }

  /** Trailing "/" and "/." do not hide the final component's extension. */
  lemma TrailingSeparatorIgnored(path: string)
    ensures IsSafetensors(path + [SEP]) == IsSafetensors(path)
    ensures IsSafetensors(path + [SEP, DOT]) == IsSafetensors(path)
  {
    NameIgnoresTrailing(path, []);
    assert path + [SEP] + [] == path + [SEP];
    NameIgnoresTrailing(path, [DOT]);
    assert path + [SEP] + [DOT] == path + [SEP, DOT];
  }

  // =====================================================================
  // Checkpoint loading (`get_encodec`, `get_lm`)

  /**
   * The two checkpoint layouts: a flat name-to-tensor container, or a pickled
   * training state in which the weights sit under a nested key path.
   */
  datatype Format = Flat | Wrapped(keyPath: seq<string>)

  /** The one read a loader performs: which file, in which layout. */
  datatype CheckpointRead = CheckpointRead(file: string, format: Format)

  /** What `get_encodec` returns, as far as this model sees it. */
  datatype EncodecModel = EncodecModel(checkpoint: CheckpointRead, stateDict: Value, numCodebooks: nat)

  /** What `get_lm` returns, as far as this model sees it. */
  datatype LmModel = LmModel(checkpoint: CheckpointRead, stateDict: Value)

  const CODEC_KEY_PATH: seq<string> := ["model"]
  const LM_KEY_PATH: seq<string> := ["fsdp_best_state", "model"]
  const LM_CHECKPOINT: string := "/home/alex/tmp/model.q8.safetensors"
  const CODEC_ACTIVE_CODEBOOKS: nat := 8

  /**
   * The format choice both loaders make from the file name:
   * flat exactly for the three extensions, otherwise wrapped under the
   * loader's key path.
   */
  function FormatOf(filename: string, wrappedKeyPath: seq<string>): (format: Format)
    ensures format == Flat <==>
              || EndsProperly(Name(filename), ".safetensors")
              || EndsProperly(Name(filename), ".sft")
              || EndsProperly(Name(filename), ".sfts")
    ensures format != Flat ==> format == Wrapped(wrappedKeyPath)
  {
    if IsSafetensors(filename) then Flat else Wrapped(wrappedKeyPath)
  }

  /** The read `get_encodec` performs: the given file, in one of its two layouts. */
  function EncodecRead(filename: string): (read: CheckpointRead)
    ensures read.file == filename
    ensures read.format == Flat || read.format == Wrapped(CODEC_KEY_PATH)
  {
    CheckpointRead(filename, FormatOf(filename, CODEC_KEY_PATH))
  }

  /**
   * `get_encodec`, given what the file deserialises to: it fails exactly when
   * the state dictionary cannot be extracted (the `KeyError` of `pkg["model"]`),
   * and otherwise loads that dictionary and keeps 8 of the quantizer's codebooks.
   */
  function GetEncodec(filename: string, contents: Value): (r: Result<EncodecModel, LookupError>)
    ensures var state := StateDict(EncodecRead(filename), contents);
            && (r.Ok? <==> state.Ok?)
            && (r.Err? ==> r.error == state.error)
            && (r.Ok? ==> r.value.checkpoint == EncodecRead(filename) && r.value.stateDict == state.value)
    ensures r.Ok? ==> r.value.numCodebooks == 8 && r.value.numCodebooks <= QUANTIZER.nQ
  {
    var read := EncodecRead(filename);
    match StateDict(read, contents)
    case Err(e) => Err(e)
    case Ok(state) => Ok(EncodecModel(read, state, CODEC_ACTIVE_CODEBOOKS))
  }

  /**
   * `get_lm`, given what the file deserialises to: its argument is overwritten
   * by a fixed path before the format test, so it always reads that file, as a
   * flat container, and never fails at extracting the state dictionary.
   */
  function GetLm(filename: string, contents: Value): (r: Result<LmModel, LookupError>)
    ensures r == Ok(LmModel(CheckpointRead(LM_CHECKPOINT, Flat), contents))
  {
    var filename := LM_CHECKPOINT;
    LmCheckpointIsSafetensors();
    var read := CheckpointRead(filename, FormatOf(filename, LM_KEY_PATH));
    match StateDict(read, contents)
    case Err(e) => Err(e)
    case Ok(state) => Ok(LmModel(read, state))
  }

  lemma LmCheckpointPath()
    ensures LM_CHECKPOINT == "/home/alex/tmp" + [SEP] + "model.q8.safetensors"
  {
  }

  lemma LmCheckpointFileAccepted()
    ensures IsSafetensors("/home/alex/tmp" + [SEP] + "model.q8.safetensors")
  {
    var file := "model.q8.safetensors";
    assert file[8..] == ".safetensors";
    ComponentVerdict(file, ".safetensors");
    DirectoryIgnored("/home/alex/tmp", file);
  }

  /** The fixed LM checkpoint path carries a recognised extension. */
  lemma LmCheckpointIsSafetensors()
    ensures IsSafetensors(LM_CHECKPOINT)
  {
    LmCheckpointPath();
    LmCheckpointFileAccepted();
  }

  /**
   * Codec dispatch is total and exclusive: a recognised extension selects the
   * flat read, anything else the wrapped read under `pkg["model"]`.
   */
  lemma EncodecDispatch(filename: string)
    ensures var format := EncodecRead(filename).format;
            && (format == Flat <==>
                  || EndsProperly(Name(filename), ".safetensors")
                  || EndsProperly(Name(filename), ".sft")
                  || EndsProperly(Name(filename), ".sfts"))
            && (format != Flat ==> format == Wrapped(["model"]))
  {
  }

  /** `get_lm`'s result does not depend on its argument. */
  lemma LmIgnoresFilename(a: string, b: string, contents: Value)
    ensures GetLm(a, contents) == GetLm(b, contents)
  {
  }

  // ---------------------------------------------------------------------
  // What a read hands to `load_model` / `load_state_dict`

  /** A deserialised checkpoint: a tensor, or a mapping from string keys. */
  datatype Value = Tensor(id: nat) | Mapping(entries: map<string, Value>)

  /** Why `pkg[k]` fails: the key is absent, or the value is not a mapping. */
  datatype LookupError = KeyError(key: string) | NotSubscriptable(key: string)

  /**
   * `pkg[k1][k2]…`: follows `keyPath` from the top of a checkpoint.  A failure
   * names a key of the path; one key succeeds exactly when it indexes a
   * mapping that holds it, and yields its entry.
   */
  function Descend(v: Value, keyPath: seq<string>): (r: Result<Value, LookupError>)
    ensures r.Err? ==> r.error.key in keyPath
    ensures |keyPath| == 1 ==>
              && (r.Ok? <==> v.Mapping? && keyPath[0] in v.entries)
              && (r.Ok? ==> r.value == v.entries[keyPath[0]])
  {
    if keyPath == [] then Ok(v)
    else match v
      case Tensor(_) => Err(NotSubscriptable(keyPath[0]))
      case Mapping(entries) =>
        if keyPath[0] in entries then Descend(entries[keyPath[0]], keyPath[1..])
        else Err(KeyError(keyPath[0]))
  }

  /** Following `a + b` is following `a`, then `b` from where `a` ended. */
  lemma {:induction false} DescendAppend(v: Value, a: seq<string>, b: seq<string>)
    ensures Descend(v, a + b) ==
              match Descend(v, a)
              case Ok(w) => Descend(w, b)
              case Err(e) => Err(e)
  {
    if a != [] {
      assert (a + b)[0] == a[0];
      assert (a + b)[1..] == a[1..] + b;
      if v.Mapping? && a[0] in v.entries {
        DescendAppend(v.entries[a[0]], a[1..], b);
      }
    } else {
      assert a + b == b;
    }
  }

  /**
   * The state dictionary a read hands to `load_model` / `load_state_dict`: a
   * flat read never fails, and a wrapped one fails only at a key of its path.
   */
  function StateDict(read: CheckpointRead, contents: Value): (r: Result<Value, LookupError>)
    ensures read.format == Flat ==> r == Ok(contents)
    ensures r.Err? ==> read.format.Wrapped? && r.error.key in read.format.keyPath
  {
    match read.format
    case Flat => Ok(contents)
    case Wrapped(keyPath) => Descend(contents, keyPath)
  }

  /**
   * The extension decides, not the contents: a recognised name loads the
   * whole container even when it looks like a wrapped training state.
   */
  lemma ExtensionTakesPrecedence(filename: string, contents: Value)
    requires IsSafetensors(filename)
    ensures GetEncodec(filename, contents) ==
              Ok(EncodecModel(CheckpointRead(filename, Flat), contents, 8))
  {
  }

  /**
   * A wrapped codec checkpoint loads exactly `pkg["model"]`, and fails, before
   * any codebook setting, when that entry is missing.
   */
  lemma EncodecWrappedState(filename: string, contents: Value)
    requires !IsSafetensors(filename)
    ensures var r := GetEncodec(filename, contents);
            && (r.Ok? <==> contents.Mapping? && "model" in contents.entries)
            && (r.Ok? ==> r.value.stateDict == contents.entries["model"])
            && (r.Err? ==> r.error.key == "model")
  {
  }

  /** The LM's wrapped key path is two levels deep: `pkg["fsdp_best_state"]["model"]`. */
  lemma LmWrappedKeyPath(contents: Value)
    ensures var r := Descend(contents, LM_KEY_PATH);
            && (r.Ok? <==>
                  && contents.Mapping? && "fsdp_best_state" in contents.entries
                  && contents.entries["fsdp_best_state"].Mapping?
                  && "model" in contents.entries["fsdp_best_state"].entries)
            && (r.Ok? ==> r.value == contents.entries["fsdp_best_state"].entries["model"])
  {
    DescendAppend(contents, ["fsdp_best_state"], ["model"]);
    assert LM_KEY_PATH == ["fsdp_best_state"] + ["model"];
  }
}
