# RAG-v0 embedding pipeline in Dafny

This project models the text-to-embeddings pipeline of the RAG-v0 backend
(`backend/RAG-embedding`) and proves properties of the model. It has four parts.

- **Chunker** (`auto_chunk_text`).
  - The target chunk size is picked from the stripped text length, and the overlap is derived from it.
  - The text is split at whitespace runs that follow `.`, `!` or `?`.
  - The sentences are packed greedily into buffers. Each new buffer is seeded with the raw tail of the previous one.
- **Providers** (`embedding_providers.py`).
  - The dummy, OpenAI and HuggingFace providers are one datatype.
  - The model covers their constructors (including the missing-API-key error), the `get_dimension` tables, `embed_text`, and the `get_embedding_provider` factory.
- **Orchestrator** (`text_to_embeddings`).
  - Failing provider construction falls back to the default dummy provider.
  - The method builds one record per chunk, and uses a zero vector when embedding a chunk fails.
  - The output `.json` path is derived from the input path.
- **Configuration store** (`embedding_config.py`).
  - The mutable `EMBEDDING_CONFIG` dictionary and the three preset dictionaries are objects.
  - `set_embedding_provider` and `use_config` are methods that update them in place. This keeps the aliasing that the shallow `update` creates.

Files:

- `common.dfy`: `Option`, `Result` and the keyword-argument values.
- `strings.dfy`: six ASCII whitespace characters, `str.strip` and the tail slice `s[-k:]`.
- `sentences.dfy`: the sentence split and its reassembly.
- `chunker.dfy`: the chunker. Its packing loop is specified by the fold `Pack`.
- `providers.dfy`: the providers.
- `pipeline.dfy`: the orchestrator.
- `config.dfy`: the configuration store. It is given twice: as pure values (`SetProvider`, `Switch`) and as the class `EmbeddingConfig`. `SetEmbeddingProvider` is proved equal to `SetProvider`. `UseConfig` and `UsePreset` are proved equal to `Switch` while the preset dictionaries still hold their declared values.

## Model

| member | source | states |
|---|---|---|
| Strings.Strip | backend/RAG-embedding/Embedding_C/auto_chunk.py:11 | the stripped text is no longer than the input, has no whitespace at either end, and is empty exactly when the input is all whitespace |
| Strings.StripDropsOnlyWhitespace | backend/RAG-embedding/Embedding_C/auto_chunk.py:11 | strip returns a contiguous slice of its input, and everything it removes on either side is whitespace |
| Strings.LastChars | backend/RAG-embedding/Embedding_C/auto_chunk.py:39 | `s[-k:]` for positive `k` is a suffix of `s` of length `min(k, len(s))` |
| Strings.SharedSuffix | backend/RAG-embedding/Embedding_C/auto_chunk.py:37 | stripping a string with text in front keeps the stripped string as a suffix |
| Strings.SharedPrefix | backend/RAG-embedding/Embedding_C/auto_chunk.py:37 | stripping a string with text behind keeps the stripped string as a prefix |
| Sentences.Split | backend/RAG-embedding/Embedding_C/auto_chunk.py:27-28 | `re.split` always yields at least one piece, and at most one more piece than the text has characters |
| Sentences.SplitReassembles | backend/RAG-embedding/Embedding_C/auto_chunk.py:27-28 | the split yields one more piece than removed gaps, and putting the gaps back between the pieces gives the original text |
| Sentences.SplitHasShape | backend/RAG-embedding/Embedding_C/auto_chunk.py:27-28 | every removed gap is a maximal non-empty whitespace run right after `.`, `!` or `?`; every piece but the last ends in that punctuation; no piece contains such a break |
| Sentences.StrippedTextSplitsIntoStrippedSentences | backend/RAG-embedding/Embedding_C/auto_chunk.py:11-28 | a non-empty stripped text splits into non-empty sentences without whitespace at either end |
| Chunker.ChunkSize | backend/RAG-embedding/Embedding_C/auto_chunk.py:17-22 | the target size never exceeds `max_chunk_size` nor half the length; it is at least a third of the length up to `3*max`, and exactly `max` beyond it |
| Chunker.Truncate | backend/RAG-embedding/Embedding_C/auto_chunk.py:24 | `int()` of a rational rounds toward zero, for both signs |
| Chunker.Overlap | backend/RAG-embedding/Embedding_C/auto_chunk.py:24 | with a ratio in [0, 1] the overlap lies between 0 and the chunk size; with the default 0.2 it is `chunk_size // 5` |
| Chunker.Step | backend/RAG-embedding/Embedding_C/auto_chunk.py:34-41 | one iteration keeps every closed buffer unchanged; it closes exactly one more, the current buffer, exactly when the sentence does not fit; the new current buffer ends in the sentence and a space |
| Chunker.Pack | backend/RAG-embedding/Embedding_C/auto_chunk.py:30-41 | the loop closes at most one buffer per sentence |
| Chunker.AutoChunk | backend/RAG-embedding/Embedding_C/auto_chunk.py:5-45 | every chunk returned is stripped |
| Chunker.Seed | backend/RAG-embedding/Embedding_C/auto_chunk.py:38-41 | a positive overlap keeps the last `min(overlap, len(buffer))` characters of the buffer; otherwise nothing is kept |
| Chunker.Emit | backend/RAG-embedding/Embedding_C/auto_chunk.py:37-43 | every closed buffer is emitted stripped, and the final buffer is emitted only when it is not blank |
| Chunker.PackSentence | backend/RAG-embedding/Embedding_C/auto_chunk.py:34-41 | one loop iteration turns the emitted chunks and the current buffer into those of one packing step |
| Chunker.AutoChunkText | backend/RAG-embedding/Embedding_C/auto_chunk.py:5-45 | the loop computes the chunk list that the size/overlap selection, the split and the packing fold define |
| Chunker.PackPartitions | backend/RAG-embedding/Embedding_C/auto_chunk.py:30-41 | the buffers' sentence groups, concatenated, are exactly the sentences in order (none dropped, none repeated), and every group but the first is non-empty |
| Chunker.PackLayout | backend/RAG-embedding/Embedding_C/auto_chunk.py:34-41 | each buffer is its seed (the overlap tail of the previous buffer, nothing for the first) followed by its group's sentences, each followed by one space |
| Chunker.PackFits | backend/RAG-embedding/Embedding_C/auto_chunk.py:34-36 | every sentence placed into a buffer fitted (length so far plus sentence at most `chunk_size`), and every sentence that opened a new buffer did not fit into the previous one |
| Chunker.PackIsGreedy | backend/RAG-embedding/Embedding_C/auto_chunk.py:30-41 | the packing result satisfies the whole greedy characterisation: partition, layout and fit |
| Chunker.ClosedBuffersCountOverflows | backend/RAG-embedding/Embedding_C/auto_chunk.py:36-37 | one buffer is closed per sentence that did not fit |
| Chunker.PackedChunks | backend/RAG-embedding/Embedding_C/auto_chunk.py:33-43 | for non-blank sentences, there is one chunk more than overflow events, the last chunk is non-empty, and chunk 0 is empty exactly when the first sentence alone exceeds `chunk_size` |
| Chunker.AutoChunkShape | backend/RAG-embedding/Embedding_C/auto_chunk.py:11-45 | short text gives exactly `[text]` (so empty text gives `[""]`); longer text gives stripped chunks, one more than the overflows, with a non-empty last chunk and an empty first chunk exactly when the first sentence overflows |
| Chunker.FirstChunk | backend/RAG-embedding/Embedding_C/auto_chunk.py:31-37 | in any greedy packing, the first buffer strips to empty exactly when the first sentence is longer than `chunk_size` |
| Chunker.NeighbouringBuffersShareSeed | backend/RAG-embedding/Embedding_C/auto_chunk.py:37-39 | the stripped seed carried from buffer `j` to buffer `j+1` ends stripped buffer `j` and begins stripped buffer `j+1` |
| Chunker.AdjacentChunksOverlap | backend/RAG-embedding/Embedding_C/auto_chunk.py:37-43 | adjacent chunks share the stripped overlap text, which is a suffix of one and a prefix of the next and is at most `overlap` long; it is non-empty when `overlap >= 2` and the earlier chunk is not empty |
| Chunker.ChunkLengthBound | backend/RAG-embedding/Embedding_C/auto_chunk.py:34-41 | a chunk whose last sentence passed the fit test (chunk 0, or one holding more than its opening sentence) is at most `chunk_size` long; a chunk holding only its overflowing opener is at most that sentence plus `overlap` |
| Chunker.OpenerChunkExceedsSize | backend/RAG-embedding/Embedding_C/auto_chunk.py:34-43 | packing `aaaa.` and `bbbbbbbbb.` with `chunk_size` 10 and overlap 4 gives the chunks `aaaa.` and `aa. bbbbbbbbb.`, 14 characters, although neither sentence exceeds 10 |
| Chunker.BuffersEndAfterText | backend/RAG-embedding/Embedding_C/auto_chunk.py:35-41 | for stripped non-empty sentences every buffer is empty or ends in a non-whitespace character followed by the appended space |
| Providers.GetDimension | backend/RAG-embedding/Embedding_C/embedding_providers.py:45-110 | the dummy declares its constructor argument; the OpenAI and HuggingFace providers always declare between 384 and 3072 |
| Providers.OpenAIDimension | backend/RAG-embedding/Embedding_C/embedding_providers.py:77-84 | 3072 exactly for `text-embedding-3-large`, 1536 for every other model name |
| Providers.HuggingFaceDimension | backend/RAG-embedding/Embedding_C/embedding_providers.py:102-110 | 768 exactly for `all-mpnet-base-v2` and `all-distilroberta-v1`, 384 for every other model name |
| Providers.Zeros | backend/RAG-embedding/Embedding_C/Text_To_Embeddings.py:54 | `[0.0] * n` has `max(n, 0)` elements, all zero |
| Providers.DummyEmbedding | backend/RAG-embedding/Embedding_C/embedding_providers.py:26-43 | the dummy vector has `max(dimension, 0)` elements, and element `i` depends only on the text, the dimension and `i` |
| Providers.EmbedText | backend/RAG-embedding/Embedding_C/embedding_providers.py:26-100 | the dummy provider never fails, and its vector has `get_dimension()` elements exactly when the dimension is not negative; the other providers return the service's vector or fail with it |
| Providers.NewDummy | backend/RAG-embedding/Embedding_C/embedding_providers.py:20-46 | construction succeeds exactly for an integer `dimension` argument or none, and `get_dimension()` is that argument or 512 |
| Providers.NewOpenAI | backend/RAG-embedding/Embedding_C/embedding_providers.py:51-57 | with well-typed arguments, construction succeeds exactly when the `api_key` argument or the environment gives a non-empty key, and otherwise fails with the missing-key error; the stored key is the non-empty argument, else the environment's; the model is the argument or `text-embedding-3-small` |
| Providers.NewHuggingFace | backend/RAG-embedding/Embedding_C/embedding_providers.py:89-95 | construction succeeds exactly when the arguments are at most a string `model_name` and the requested model loads: that argument or `all-MiniLM-L6-v2` |
| Providers.GetEmbeddingProvider | backend/RAG-embedding/Embedding_C/embedding_providers.py:112-124 | unknown names are rejected exactly when outside {dummy, openai, huggingface}; a known name passes the kwargs on: it succeeds exactly when they suit that constructor, and builds the provider holding the given dimension, key, model or model name, or their defaults |
| Providers.GetDefaultEmbeddingProvider | backend/RAG-embedding/Embedding_C/embedding_providers.py:112-124 | without a provider name the factory builds the dummy provider: it succeeds exactly for an integer `dimension` or none, and with no arguments it is 512-dimensional |
| Pipeline.LastIndexOf | backend/RAG-embedding/Embedding_C/Text_To_Embeddings.py:22 | the index found holds the character and nothing after it does, or it is -1 |
| Pipeline.BaseName | backend/RAG-embedding/Embedding_C/Text_To_Embeddings.py:22 | `os.path.basename` returns the suffix of the path that follows its last `/` (the whole path when there is none) |
| Pipeline.Stem | backend/RAG-embedding/Embedding_C/Text_To_Embeddings.py:22 | `os.path.splitext(name)[0]` cuts the name at its last `.` exactly when a non-dot character comes before that dot, and otherwise returns the name unchanged |
| Pipeline.Join | backend/RAG-embedding/Embedding_C/Text_To_Embeddings.py:23 | `os.path.join` of a directory and a relative name is the directory, then one added `/` exactly when the directory is non-empty and does not already end in `/`, then the name |
| Pipeline.OutputPath | backend/RAG-embedding/Embedding_C/Text_To_Embeddings.py:22-23 | the output path starts with `embeddings_dir` and ends in `.json` |
| Pipeline.StemOfJson | backend/RAG-embedding/Embedding_C/Text_To_Embeddings.py:22-23 | stripping the extension of `stem + ".json"` gives back `stem` exactly when `stem` is not all dots |
| Pipeline.OutputPathNamesInput | backend/RAG-embedding/Embedding_C/Text_To_Embeddings.py:22-23 | the output path is `embeddings_dir`, then a `/` exactly when `embeddings_dir` is non-empty and does not already end in `/`, then the file name, which is the input's stem plus `.json`; the extension round-trips unless the stem is all dots |
| Pipeline.ActiveProvider | backend/RAG-embedding/Embedding_C/Text_To_Embeddings.py:29-37 | the configured provider is used when it can be built; otherwise it is the 512-dimensional dummy provider, whatever the settings |
| Pipeline.EmbedChunk | backend/RAG-embedding/Embedding_C/Text_To_Embeddings.py:49-62 | the record holds the index, the chunk, its length, the provider's vector or zeros of the declared dimension when embedding raised, and the vector's length |
| Pipeline.TextToEmbeddings | backend/RAG-embedding/Embedding_C/Text_To_Embeddings.py:5-69 | a missing file fails with FileNotFound and nothing else; otherwise the output path is derived from the input, and there is exactly one record per chunk, in order, each built from its own chunk and its own service reply |
| Config.SettingsDict.Update | backend/RAG-embedding/embedding_config.py:34 | `dict.update`: keys are the union, the argument's entries win, and the other entries are unchanged |
| Config.PresetValue | backend/RAG-embedding/embedding_config.py:39-62 | the three presets are exactly the known names, and each holds only its own provider's entry, for a known provider |
| Config.SetProvider | backend/RAG-embedding/embedding_config.py:30-34 | the provider is set; with kwargs, only the named provider's entry gains or overwrites the kwargs' keys and all other entries are unchanged; a KeyError is raised exactly for non-empty kwargs and an absent provider |
| Config.Switch | backend/RAG-embedding/embedding_config.py:56-70 | a known preset replaces the provider and the whole providers map with the preset's; an unknown name changes nothing |
| Config.SetProviderIdempotent | backend/RAG-embedding/embedding_config.py:30-34 | setting the same provider with the same kwargs twice gives the state of setting it once |
| Config.SwitchLastWins | backend/RAG-embedding/embedding_config.py:64-65 | switching to a preset after any switch gives the same state as that switch alone, and a preset applied twice equals applying it once |
| Config.PresetKeepsOneProvider | backend/RAG-embedding/embedding_config.py:34-65 | after a preset, setting another provider with kwargs raises KeyError, because the preset's map holds only its own provider |
| Config.DefaultSettingsBuildProviders | backend/RAG-embedding/embedding_config.py:6-24 | the default dummy settings build the 512-dimensional dummy, the default OpenAI settings build a 1536-dimensional provider exactly when a key is available, and the default HuggingFace settings build one exactly when its model loads |
| Config.EmbeddingConfig.constructor | backend/RAG-embedding/embedding_config.py:6-54 | the store starts from the default configuration, with fresh, unshared preset dictionaries |
| Config.EmbeddingConfig.GetEmbeddingConfig | backend/RAG-embedding/embedding_config.py:26-28 | returns the live configuration object itself, not a copy |
| Config.EmbeddingConfig.SetEmbeddingProvider | backend/RAG-embedding/embedding_config.py:30-34 | the new state is `SetProvider` of the old state; only the configuration and that provider's settings object change, and the presets stay untouched while the store is not aliased |
| Config.EmbeddingConfig.UseConfig | backend/RAG-embedding/embedding_config.py:56-70 | a known preset makes the live `providers` the preset's own dictionary (shared, not copied); an unknown name changes nothing; while the presets hold their declared values this is exactly `Switch` |
| Config.EmbeddingConfig.UsePreset | backend/RAG-embedding/embedding_config.py:56-70 | like `use_config`, but installs fresh copies of the preset's settings; from pristine presets this is exactly `Switch` |
| Config.NewProvidersDict | backend/RAG-embedding/embedding_config.py:11-23 | builds a providers dictionary with one fresh settings object per provider and the given contents |
| Config.EditDevelopmentInPlace | backend/RAG-embedding/embedding_config.py:32-65 | as written: `use_config("development")` then `set_embedding_provider("dummy", dimension=128)` writes 128 into the development preset's own settings dictionary |
| Config.EditDevelopmentCopy | backend/RAG-embedding/embedding_config.py:32-42 | with copying presets the same edit leaves every preset dictionary as declared |
| Config.EditedPresetComesBack | backend/RAG-embedding/embedding_config.py:32-65 | as written: after editing the development dummy to dimension 128, switching away and back gives 128 |
| Config.EditedPresetIsDiscarded | backend/RAG-embedding/embedding_config.py:39-65 | with copying presets the same sequence gives the preset's 384 again |

## Left out

- File reading, `os.path.exists`, `os.makedirs`, the JSON dump and the progress prints. The text and the file's existence are inputs (`contents: Option<string>`), and the result carries the output path and the records.
- Python's regular-expression engine. Whitespace is six ASCII whitespace characters, for both `strip` and the split: space, tab, newline, carriage return, vertical tab and form feed.
- Strings.IsSpace: the separators U+001C to U+001F and the non-ASCII whitespace characters are not modelled, although `str.strip()` and `\s` treat them as whitespace where auto_chunk.py:11 and :37-43 strip and :27-28 split the text.
- Floating-point work. The dummy provider's `random.uniform` values and the normalisation are symbolic coordinates that depend on the text, the dimension and the position. The overlap ratio is an exact rational, and `int()` is truncation toward zero.
- MD5, `random.seed`, the OpenAI HTTP request and SentenceTransformer.
  - Embedding by OpenAI or HuggingFace is a `Reply` that the caller supplies per chunk.
  - Whether a HuggingFace model loads is a set of loadable model names.
  - `OPENAI_API_KEY` is an optional string in the `Environment`.
- Providers.NewDummy: a `dimension` that is not an integer is rejected at construction. Python accepts it there. Through `text_to_embeddings`, a string `dimension` then makes `embed_text` raise, and `[0.0] * embedding_dimension` raises `TypeError` again inside the handler (Text_To_Embeddings.py:51-54), so the call fails. The model instead falls back to the 512-dimensional dummy provider and succeeds.
- Providers.NewOpenAI: an `api_key` or `model` that is not a string is rejected at construction. Python accepts a truthy non-string key and any `model` (embedding_providers.py:52-56). Providers.NewHuggingFace likewise rejects a non-string `model_name`.
- Pipeline.TextToEmbeddings: the race between the existence check and the read is not modelled.
- Windows path separators in `os.path.basename` and `os.path.join`: only `/` is modelled.
- Chunker.AdjacentChunksOverlap: adjacent chunks need not share non-empty text in two cases. The seed is cut from the raw buffer, which ends in a space (auto_chunk.py:37-39). With `overlap == 1` that space is the whole seed, and stripping removes it. When chunk `j` is empty (chunk 0 when the first sentence overflows), there is nothing to carry. The non-empty shared text is proved for every other case.
- Chunker.ChunkLengthBound: a chunk is not bounded by `chunk_size` when it holds only the sentence that opened it. The seed is put in front of that sentence without a fit test (auto_chunk.py:39). Chunker.OpenerChunkExceedsSize shows a 14-character chunk from two sentences of at most 10 characters with `chunk_size` 10. The model proves the bound the code gives: that sentence plus `overlap`.
- Providers.DummyEmbedding: the coordinates are symbolic. `Drawn(text, dimension, i)` is distinct for distinct texts, but the source seeds its generator from only the first 8 hex digits of an MD5 hash (embedding_providers.py:32), so two texts can give the same vector. Likewise `Returned(0.0)` and `Zero` are different coordinates in the model but the same number in Python. No property here depends on either difference.
- The format extractors, `File_entry.py`, the API server, the command-line scripts and the frontend.

## Findings

| source | as written | input that shows it | evidently intended | confidence | as-written member | corrected member |
|---|---|---|---|---|---|---|
| backend/RAG-embedding/embedding_config.py:64-65 | `EMBEDDING_CONFIG.update(preset)` installs the preset's own `providers` dictionary, so a later `set_embedding_provider` edits the preset itself | `use_config("development")`, `set_embedding_provider("dummy", dimension=128)`, `use_config("openai")`, `use_config("development")`: the dummy dimension is 128 | switching to a preset restores its settings (dimension 384) | not executed | Config.EditedPresetComesBack | Config.EditedPresetIsDiscarded |
