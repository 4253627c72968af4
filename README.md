# Moshi model loading: configuration and checkpoint-format dispatch

This project models `msh/models/moshi.py`. That file holds the fixed
architecture parameter sets of Moshi's audio codec and language model. It
also holds the two loaders `get_encodec` and `get_lm`, which pick one of two
checkpoint layouts from the file name:

- a flat name-to-tensor safetensors container;
- a pickled training state whose weights sit under a nested key path.

The model is pure: datatypes, functions and lemmas.

- `pathlib.dfy` (module `Pathlib`) writes out the part of Python's
  `PurePosixPath` that the format test uses. A path is split at `/`. Empty
  parts and `.` parts are dropped. The name is the last part left. The suffix
  is the text from the name's last `.`, but only when that dot is neither the
  first nor the last character of the name.
- `moshi.dfy` (module `Moshi`) holds four things:
  - the parameter sets, as immutable records built from one another the way
    the dictionaries refer to each other;
  - `_is_safetensors`;
  - the dispatch of both loaders;
  - the key-path descent that a wrapped checkpoint needs.

The deserialised file contents are a parameter of each loader. A loaded
model is represented by the checkpoint read it performs, the state
dictionary that read extracts and, for the codec, its active codebook
count. A wrapped read whose key is missing makes the loader fail.

Two details of the code matter here:

- `delays` has 17 entries. That is `n_q + 1`, not `n_q`.
- `get_lm` overwrites its `filename` argument with a fixed path before it
  tests the format (line 145). So it always reads that path, and always as
  a flat safetensors file.

## Model

| member | source | states |
|---|---|---|
| `Pathlib.LastIndex` | msh/models/moshi.py:93-94 | `rfind`: the result is -1 or an index holding a match, and no later index matches |
| `Pathlib.Split` | msh/models/moshi.py:93 | path parsing splits at every `/` into at least one part, none of which contains `/` |
| `Pathlib.JoinSplit` | msh/models/moshi.py:93 | joining the split parts with `/` gives back the original path |
| `Pathlib.SplitJoin` | msh/models/moshi.py:93 | splitting `/`-joined separator-free parts gives back those parts |
| `Pathlib.SplitAtSep` | msh/models/moshi.py:93 | splitting `a/b` is splitting `a`, then splitting `b` |
| `Pathlib.Name` | msh/models/moshi.py:93-94 | the final component contains no `/` and is empty or a kept part (not `.`) |
| `Pathlib.NameOfChild` | msh/models/moshi.py:93-94 | the name of `dir/file` is `file`, whatever `dir` is |
| `Pathlib.NameOfComponent` | msh/models/moshi.py:93-94 | a single kept component is its own name |
| `Pathlib.NameIgnoresTrailing` | msh/models/moshi.py:93 | a trailing `/` or `/.` does not change the name |
| `Pathlib.LastIndexAppend` | msh/models/moshi.py:93-94 | the last match in `xs + ys` is in `ys` if `ys` has one, otherwise it is the last match in `xs` |
| `Pathlib.Suffix` | msh/models/moshi.py:94 | pathlib's `suffix` rule: the suffix is empty, or a dot followed by at least one non-dot character that ends the name and has something before it |
| `Pathlib.SuffixIs` | msh/models/moshi.py:94 | for any extension, the suffix equals it exactly when the name ends with it and is longer than it |
| `Pathlib.NoDotNoSuffix` | msh/models/moshi.py:94 | a name without a dot has no suffix |
| `Pathlib.NoSuffix` | msh/models/moshi.py:94 | a name with no suffix is not properly ended by any extension |
| `Moshi.SeanetKwargs` | msh/models/moshi.py:15-34 | the SEANet set is mono and causal, matching the `channels=1` and `causal=True` the codec is built with (lines 113, 117), and its dimension is 512 |
| `Moshi.QuantizerKwargs` | msh/models/moshi.py:35-41 | the quantizer's input and output dimensions are the SEANet dimension, and its `n_q` leaves room for the 8 codebooks the codec keeps |
| `Moshi.TransformerKwargs` | msh/models/moshi.py:42-57 | the transformer's `d_model`, input dimension and single output dimension are all the SEANet dimension |
| `Moshi.Truncate` | msh/models/moshi.py:77 | `int()` of a non-negative quotient is its floor: the largest whole number whose multiple of the divisor does not exceed the dividend |
| `Moshi.LmKwargs` | msh/models/moshi.py:59-89 | `card` is the quantizer's `bins`; `dep_q` ≤ `n_q`; `delays` has `n_q + 1` entries, each 0 or 1, the first 0; the depformer feed-forward width is exactly `hidden_scale` × `depformer_dim` |
| `Moshi.CrossReferences` | msh/models/moshi.py:35-65 | for any SEANet dimension, the quantizer's input/output dimensions and the transformer's `d_model`, input and output dimensions all equal it; the LM `card` equals the quantizer's `bins` |
| `Moshi.ConfigurationValues` | msh/models/moshi.py:15-89 | the shared dimension is 512; `bins` and `card` are 2048; `dep_q` (8) ≤ `n_q` (16) ≤ the quantizer's 32 |
| `Moshi.DepformerFeedforwardExact` | msh/models/moshi.py:76-77 | `int(4.125 * 1024)` is 4224, exactly `hidden_scale` × `depformer_dim`, so truncation loses nothing |
| `Moshi.DelaysShape` | msh/models/moshi.py:63-88 | `delays` has `n_q + 1` = 17 entries, each 0 or 1, the first is 0, and the zeros are exactly at indices 0, 1 and 9 |
| `Moshi.IsSafetensors` | msh/models/moshi.py:92-94 | the test holds exactly when the final component properly ends with `.safetensors`, `.sft` or `.sfts` |
| `Moshi.ComponentVerdict` | msh/models/moshi.py:93-94 | when a single component ends with an extension, only that last extension decides the verdict |
| `Moshi.DirectoryIgnored` | msh/models/moshi.py:93-94 | the verdict for `dir/file` is the verdict for `file` |
| `Moshi.DirectoryDotIgnored` | msh/models/moshi.py:93-94 | a file without a dot is rejected even inside a directory whose own name would be accepted |
| `Moshi.TrailingSeparatorIgnored` | msh/models/moshi.py:93-94 | appending `/` or `/.` does not change the verdict |
| `Moshi.DotfileRejected` | msh/models/moshi.py:93-94 | a name whose only dot is its first character is rejected |
| `Moshi.SeveralDotsAccepted` | msh/models/moshi.py:94 | `a.b.sfts` is accepted |
| `Moshi.LaterExtensionRejected` | msh/models/moshi.py:94 | `ckpt.sft.bak` is rejected |
| `Moshi.UpperCaseRejected` | msh/models/moshi.py:94 | `weights.SFT` is rejected: matching is case-sensitive |
| `Moshi.BareDotfileRejected` | msh/models/moshi.py:94 | `.sft` is rejected: it has no suffix |
| `Moshi.FormatOf` | msh/models/moshi.py:123-130 | the format choice is flat exactly for the three extensions, otherwise wrapped under the loader's key path |
| `Moshi.EncodecRead` | msh/models/moshi.py:123-130 | the codec reads the file it was given, in exactly one of two layouts: flat, or wrapped under `["model"]` |
| `Moshi.GetEncodec` | msh/models/moshi.py:97-133 | the codec fails exactly when its state dictionary cannot be extracted, with that error; otherwise it loads that dictionary and ends with 8 active codebooks, at most the quantizer's `n_q` |
| `Moshi.EncodecDispatch` | msh/models/moshi.py:123-130 | codec dispatch is total and exclusive: flat exactly for the three extensions, otherwise wrapped under `["model"]` |
| `Moshi.GetLm` | msh/models/moshi.py:136-153 | whatever it is asked to load, the LM reads the fixed `/home/alex/tmp/model.q8.safetensors` as a flat container, never fails, and loads the whole container |
| `Moshi.LmCheckpointIsSafetensors` | msh/models/moshi.py:145-146 | the fixed LM path passes the format test |
| `Moshi.LmIgnoresFilename` | msh/models/moshi.py:145-147 | `get_lm`'s result does not depend on its argument, for any file contents |
| `Moshi.Descend` | msh/models/moshi.py:130 | `pkg[k]…` fails only at a key of the path; a single key succeeds exactly when it indexes a mapping holding it, and yields that entry |
| `Moshi.StateDict` | msh/models/moshi.py:123-130 | a flat read hands over the whole container and never fails; a wrapped read fails only at a key of its path |
| `Moshi.DescendAppend` | msh/models/moshi.py:153 | following a key path `a + b` is following `a`, then `b` from where `a` ended; errors propagate |
| `Moshi.ExtensionTakesPrecedence` | msh/models/moshi.py:123-124 | with a recognised extension, the codec loads the whole container, even one shaped like a training state, and keeps 8 codebooks |
| `Moshi.EncodecWrappedState` | msh/models/moshi.py:125-131 | a wrapped codec load succeeds exactly when the contents are a mapping with key `model`, loads that entry, and otherwise fails at key `model` |
| `Moshi.LmWrappedKeyPath` | msh/models/moshi.py:148-153 | the LM's wrapped path succeeds exactly when `fsdp_best_state` is a mapping holding `model`, and yields that entry |

## Left out

- Module construction (`SEANetEncoder`, `SEANetDecoder`, `ProjectedTransformer`, `SplitResidualVectorQuantizer`, `EncodecModel`, `LMModel`): these classes are not part of this model. Residual quantization, delay scheduling and the depformer are not modelled either.
- Weight I/O (`safetensors.torch.load_model`, `torch.load`, `load_state_dict`, the commented-out `save_file`): a read is represented by its file and layout. The deserialised contents are a parameter (`Value`), and the check of key sets against the architecture is not modelled.
- Device and dtype placement (`.to(...)`, `torch.bfloat16`), `.eval()`, the `quantize='int8'` argument and the commented-out `quantize_module_int8_` pass are left out. They act on tensors in code outside this model.
- Floating-point entries are left out: `FRAME_RATE`, `encoder_frame_rate` (which needs the encoder's `hop_length`) and the transformer's `layer_scale` of 0.01 (line 47). `hidden_scale` is kept exactly, as 33 eighths.
- The `None` entries of `lm_kwargs`, `layer_scale` and `depformer_layer_scale` (lines 70, 81), are dropped too. They are only read by `LMModel`, which is not part of this model, and no other entry refers to them.
- The parameter-count `print` (line 132) is output only and is left out.
- `Moshi.GetEncodec`: `set_num_codebooks(8)` is recorded as the count 8 on the result. Its effect on the quantizer object is not modelled.
- `Pathlib.Name`: only POSIX paths given as `str` are modelled. Windows separators and drive letters are not. Neither is passing an existing `Path` object, which `Path()` returns unchanged.
- `Pathlib.Suffix`: the modelled rule is pathlib's up to Python 3.13: the text from the last `.` of the name, when that dot is neither its first nor its last character. Later Python versions may compute the suffix differently for names that begin or end with dots. Under the modelled rule `..sft` has suffix `.sft` and is accepted; under those versions it may not be.
- `Moshi.Descend`: a value that is neither a tensor nor a mapping is not modelled. Indexing any non-mapping is one error, `NotSubscriptable`.
