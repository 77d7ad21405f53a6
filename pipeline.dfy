/** `text_to_embeddings`: the output path, the provider with its fallback,
    the chunking, and the loop that builds one record per chunk. */
module Pipeline {
  import opened Common
  import opened Strings
  import opened Chunker
  import opened Providers

  /** One element of the JSON array written for a document. */
  datatype Record = Record(chunkIndex: nat, text: string, embedding: Vector,
                           chunkLength: nat, embeddingDimension: nat)

  datatype PipelineError = FileNotFound(path: string)

  /** The path returned and the records written to it. */
  datatype Output = Output(path: string, records: seq<Record>)

  /** The last position of `c` in `s`, or -1 (`str.rfind`). */
  function LastIndexOf(s: string, c: char): (i: int)
    ensures -1 <= i < |s|
    ensures 0 <= i ==> s[i] == c
    ensures forall k :: i < k < |s| ==> s[k] != c
  {
    if s == [] then -1
    else if s[|s| - 1] == c then |s| - 1
    else LastIndexOf(s[..|s| - 1], c)
  }

  /** `os.path.basename`: what follows the last `/`. */
  function BaseName(path: string): (name: string)
    ensures IsSuffix(name, path)
    ensures forall k :: 0 <= k < |name| ==> name[k] != '/'
    ensures |name| == |path| || path[|path| - |name| - 1] == '/'
  {
    path[LastIndexOf(path, '/') + 1..]
  }

  predicate AllDots(s: string) {
    forall i :: 0 <= i < |s| ==> s[i] == '.'
  }

  /** `os.path.splitext(name)[0]` for a name without `/`: the name up to its
      last dot, unless every character before that dot is a dot too
      (`.bashrc` has no extension). */
  function Stem(name: string): (stem: string)
    ensures IsPrefix(stem, name)
    ensures stem == name || (&& |stem| < |name| && name[|stem|] == '.' && !AllDots(stem)
                             && forall k :: |stem| < k < |name| ==> name[k] != '.')
    ensures stem == name ==> var dot := LastIndexOf(name, '.'); dot < 0 || AllDots(name[..dot])
  {
    var dot := LastIndexOf(name, '.');
    if 0 <= dot && !AllDots(name[..dot]) then name[..dot] else name
  }

  /** `os.path.join(directory, name)` for a relative `name`. */
  function Join(directory: string, name: string): (path: string)
    ensures IsPrefix(directory, path) && IsSuffix(name, path)
    ensures |directory| + |name| <= |path| <= |directory| + 1 + |name|
    ensures |path| == |directory| + 1 + |name| ==> path[|directory|] == '/'
    ensures |path| == |directory| + |name| <==> directory == [] || directory[|directory| - 1] == '/'
  {
    if directory == [] || directory[|directory| - 1] == '/' then directory + name
    else directory + "/" + name
  }

  /** The `.json` file in `embeddings_dir` named after the input file. */
  function OutputPath(embeddingsDir: string, filePath: string): (path: string)
    ensures IsPrefix(embeddingsDir, path) && IsSuffix(".json", path)
  {
    var name := Stem(BaseName(filePath)) + ".json";
    SuffixOfSuffix(".json", name, Join(embeddingsDir, name));
    Join(embeddingsDir, name)
  }

  lemma SuffixOfSuffix(a: string, b: string, c: string)
    requires IsSuffix(a, b) && IsSuffix(b, c)
    ensures IsSuffix(a, c)
  {
    assert c[|c| - |a|..] == b[|b| - |a|..];
  }

  /** The last occurrence is the one after which `c` no longer appears. */
  lemma LastIndexAt(s: string, c: char, pos: nat)
    requires pos < |s| && s[pos] == c
    requires forall k :: pos < k < |s| ==> s[k] != c
    ensures LastIndexOf(s, c) == pos
  {
  }

  /** The base name of a path that ends in a name without `/` is that name. */
  lemma BaseNameOfJoin(directory: string, name: string)
    requires forall k :: 0 <= k < |name| ==> name[k] != '/'
    ensures BaseName(Join(directory, name)) == name
  {
    var out := Join(directory, name);
    var cut := |out| - |name|;
    assert out[cut..] == name;
    if directory != [] {
      assert out[cut - 1] == '/';
      LastIndexAt(out, '/', cut - 1);
    }
  }

  /** The stem of `stem + ".json"`. */
  lemma StemOfJson(stem: string)
    ensures Stem(stem + ".json") == stem <==> !AllDots(stem)
  {
    var name := stem + ".json";
    LastIndexAt(name, '.', |stem|);
    assert name[..|stem|] == stem;
  }

  /** The output file lies in the embeddings directory, its name is the stem
      of the input's name followed by `.json`, and taking the stem of that name
      gives the input's stem back exactly when that stem is not made of dots
      only. */
  lemma OutputPathNamesInput(embeddingsDir: string, filePath: string)
    ensures var out := OutputPath(embeddingsDir, filePath);
            var stem := Stem(BaseName(filePath));
            && IsPrefix(embeddingsDir, out)
            && |out| <= |embeddingsDir| + 1 + |stem| + 5
            && (|out| == |embeddingsDir| + 1 + |stem| + 5 ==> out[|embeddingsDir|] == '/')
            && (|out| == |embeddingsDir| + 1 + |stem| + 5 <==>
                  embeddingsDir != [] && embeddingsDir[|embeddingsDir| - 1] != '/')
            && BaseName(out) == stem + ".json"
            && (Stem(BaseName(out)) == stem <==> !AllDots(stem))
  {
    var base := BaseName(filePath);
    var stem := Stem(base);
    var name := stem + ".json";
    assert forall k :: 0 <= k < |stem| ==> stem[k] == base[k];
    assert forall k :: 0 <= k < |name| ==> name[k] != '/';
    BaseNameOfJoin(embeddingsDir, name);
    StemOfJson(stem);
  }

  /** The provider the loop uses: the configured one when it could be built,
      the default dummy provider (dimension 512, whatever was configured)
      otherwise. */
  function ActiveProvider(providerType: string, kwargs: Kwargs, env: Environment): (p: Provider)
    ensures GetEmbeddingProvider(providerType, kwargs, env).Success? ==>
              p == GetEmbeddingProvider(providerType, kwargs, env).value
    ensures GetEmbeddingProvider(providerType, kwargs, env).Failure? ==>
              p.Dummy? && GetDimension(p) == DefaultDummyDimension
    ensures providerType !in KnownProviders ==> p == Dummy(DefaultDummyDimension)
  {
    match GetEmbeddingProvider(providerType, kwargs, env)
    case Success(p) => p
    case Failure(_) => GetEmbeddingProvider("dummy", map[], env).value
  }

  /** Record `index` of the output: the chunk, its length, the provider's
      vector or, when `embed_text` raised, zeros of the provider's declared
      dimension, and the length of that vector. */
  ghost predicate RecordFor(rec: Record, index: nat, chunk: string, p: Provider, reply: Reply) {
    var attempt := EmbedText(p, chunk, reply);
    && rec.chunkIndex == index
    && rec.text == chunk
    && rec.chunkLength == |chunk|
    && rec.embeddingDimension == |rec.embedding|
    && (attempt.Success? ==> rec.embedding == attempt.value)
    && (attempt.Failure? ==> rec.embedding == Zeros(GetDimension(p)))
  }

  /** Record `j` is the record for chunk `j`, for every record there is. */
  ghost predicate RecordsFor(records: seq<Record>, chunks: seq<string>, p: Provider, service: (nat, string) -> Reply) {
    |records| <= |chunks| &&
    forall j :: 0 <= j < |records| ==> RecordFor(records[j], j, chunks[j], p, service(j, chunks[j]))
  }

  lemma RecordsForAppend(records: seq<Record>, rec: Record, chunks: seq<string>, p: Provider,
                         service: (nat, string) -> Reply)
    requires RecordsFor(records, chunks, p, service) && |records| < |chunks|
    requires RecordFor(rec, |records|, chunks[|records|], p, service(|records|, chunks[|records|]))
    ensures RecordsFor(records + [rec], chunks, p, service)
  {
    var n := |records|;
    forall j | 0 <= j < n + 1
      ensures RecordFor((records + [rec])[j], j, chunks[j], p, service(j, chunks[j]))
    {
      if j < n {
        assert (records + [rec])[j] == records[j];
      }
    }
  }

  /** The loop body for chunk `index`: the provider's vector, or zeros of the
      provider's declared `dimension` when `embed_text` raised, and the
      record built from it. */
  method EmbedChunk(index: nat, chunk: string, provider: Provider, dimension: int, reply: Reply)
    returns (rec: Record)
    requires dimension == GetDimension(provider)
    ensures RecordFor(rec, index, chunk, provider, reply)
  {
    var attempt := EmbedText(provider, chunk, reply);
    var embedding := if attempt.Success? then attempt.value else Zeros(dimension);
    rec := Record(index, chunk, embedding, |chunk|, |embedding|);
  }

  /** `text_to_embeddings(file_path, embeddings_dir, provider_type,
      **provider_kwargs)`. `contents` is what reading the file yields (`None`
      when it does not exist) and `service(i, chunk)` is the external model's
      answer to the call for chunk `i`. */
  method TextToEmbeddings(filePath: string, contents: Option<string>, embeddingsDir: string,
                          providerType: string, providerKwargs: Kwargs, env: Environment,
                          service: (nat, string) -> Reply)
    returns (r: Result<Output, PipelineError>)
    ensures r.Failure? <==> contents.None?
    ensures r.Failure? ==> r.error == FileNotFound(filePath)
    ensures r.Success? ==> r.value.path == OutputPath(embeddingsDir, filePath)
    ensures r.Success? ==>
              var chunks := AutoChunk(contents.value, DefaultMinChunkSize, DefaultMaxChunkSize, DefaultOverlapRatio);
              var p := ActiveProvider(providerType, providerKwargs, env);
              && |r.value.records| == |chunks|
              && RecordsFor(r.value.records, chunks, p, service)
  {
    if contents.None? {
      return Failure(FileNotFound(filePath));
    }
    var outputPath := Join(embeddingsDir, Stem(BaseName(filePath)) + ".json");

    var provider := ActiveProvider(providerType, providerKwargs, env);
    var dimension := GetDimension(provider);

    var chunks := AutoChunkText(contents.value, DefaultMinChunkSize, DefaultMaxChunkSize, DefaultOverlapRatio);
    var records: seq<Record> := [];
    for idx := 0 to |chunks|
      invariant |records| == idx
      invariant RecordsFor(records, chunks, provider, service)
    {
      var chunk := chunks[idx];
      var rec := EmbedChunk(idx, chunk, provider, dimension, service(idx, chunk));
      RecordsForAppend(records, rec, chunks, provider, service);
      records := records + [rec];
    }
    return Success(Output(outputPath, records));
  }
}
