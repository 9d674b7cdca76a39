/** Compiling an agent task into a workflow graph (client.go, `BuildGraph`). */
module BuildGraph {
  import opened Common
  import opened Text
  import opened LookupOrder
  import opened WorkflowGraph

  // ---------- tasks ----------

  datatype Reference = Reference(video: bool, url: string)

  datatype TTS = TTS(voice: string, languageType: string, instructions: string, optimize: Option<bool>)

  datatype Music = Music(
    lyrics: string, isInstrumental: Option<bool>, lyricsOptimizer: Option<bool>, outputFormat: string,
    sampleRate: int, bitrate: int, format: string)

  datatype SFX = SFX(duration: int, format: string)

  datatype AudioMix = AudioMix(audioURLs: seq<string>, volumes: seq<real>, delays: seq<int>, duration: int, format: string)

  datatype Search = Search(
    mode: string, mediaTypes: seq<string>, source: string, maxResults: int, tags: seq<string>, sort: string,
    order: string, page: int, nextToken: string, fieldQuery: string, simpleQuery: string)

  datatype VoiceDesign = VoiceDesign(
    voicePrompt: string, previewText: string, targetModel: string, preferredName: string, language: string,
    sampleRate: int, responseFormat: string, omitPreview: bool)

  datatype Structured = Structured(
    imageSize: string, imageAspectRatio: string, imageResolution: string, imageQuality: string,
    imageWatermark: Option<bool>, videoDuration: int, videoSize: string, videoWatermark: Option<bool>,
    videoAspectRatio: string, videoResolution: string, videoAudio: Option<bool>)

  datatype Task = Task(
    prompt: string, negativePrompt: string, width: int, height: int, size: string, quality: string,
    duration: int, watermark: Option<bool>, references: seq<Reference>, audioURL: string,
    tts: Option<TTS>, voiceDesign: Option<VoiceDesign>, music: Option<Music>, sfx: Option<SFX>,
    audioMix: Option<AudioMix>, search: Option<Search>, structured: Option<Structured>)

  // ---------- option maps ----------

  type Inputs = map<string, Value>

  function PutString(m: Inputs, k: string, v: string): Inputs {
    if v != "" then m[k := VString(v)] else m
  }

  function PutPositive(m: Inputs, k: string, v: int): Inputs {
    if v > 0 then m[k := VInt(v)] else m
  }

  function PutBool(m: Inputs, k: string, v: Option<bool>): Inputs {
    if v.Some? then m[k := VBool(v.value)] else m
  }

  function PutStrings(m: Inputs, k: string, v: seq<string>): Inputs {
    if v != [] then m[k := VStrings(v)] else m
  }

  function OrElse(v: string, fallback: string): string {
    if v != "" then v else fallback
  }

  function NoStructure(): Structured {
    Structured("", "", "", "", None, 0, "", None, "", "", None)
  }

  function StructureOf(t: Task): Structured {
    if t.structured.Some? then t.structured.value else NoStructure()
  }

  /** Structured settings override the flat ones. */
  function ImageOptions(t: Task): Inputs {
    var s := StructureOf(t);
    var m := PutString(map[], "size", OrElse(s.imageSize, t.size));
    var m := PutString(m, "aspect_ratio", s.imageAspectRatio);
    var m := PutString(m, "resolution", s.imageResolution);
    var m := PutString(m, "quality", OrElse(s.imageQuality, t.quality));
    PutBool(m, "watermark", if s.imageWatermark.Some? then s.imageWatermark else t.watermark)
  }

  function VideoOptions(t: Task): Inputs {
    var s := StructureOf(t);
    var m := PutString(map[], "size", OrElse(s.videoSize, t.size));
    var m := PutPositive(m, "duration", if s.videoDuration > 0 then s.videoDuration else t.duration);
    var m := PutString(m, "aspect_ratio", s.videoAspectRatio);
    var m := PutString(m, "resolution", s.videoResolution);
    var m := PutBool(m, "audio", s.videoAudio);
    PutBool(m, "watermark", if s.videoWatermark.Some? then s.videoWatermark else t.watermark)
  }

  function TTSOptions(x: TTS): Inputs {
    var m := PutString(map[], "voice", x.voice);
    var m := PutString(m, "language_type", x.languageType);
    var m := PutString(m, "instructions", x.instructions);
    PutBool(m, "optimize_instructions", x.optimize)
  }

  function MusicOptions(x: Music): Inputs {
    var m := PutString(map[], "lyrics", x.lyrics);
    var m := PutBool(m, "is_instrumental", x.isInstrumental);
    var m := PutBool(m, "lyrics_optimizer", x.lyricsOptimizer);
    var m := PutString(m, "output_format", x.outputFormat);
    var m := PutPositive(m, "sample_rate", x.sampleRate);
    var m := PutPositive(m, "bitrate", x.bitrate);
    PutString(m, "format", x.format)
  }

  function SFXOptions(x: SFX): Inputs {
    PutString(PutPositive(map[], "duration", x.duration), "format", x.format)
  }

  function MixOptions(x: AudioMix): Inputs {
    var m: Inputs := map["audio_urls" := VStrings(x.audioURLs)];
    var m := if x.volumes != [] then m["volumes" := VReals(x.volumes)] else m;
    var m := if x.delays != [] then m["delays" := VInts(x.delays)] else m;
    PutString(PutPositive(m, "duration", x.duration), "format", x.format)
  }

  function SearchFilters(x: Search): Inputs {
    var m := PutString(map[], "mode", x.mode);
    var m := PutStrings(m, "media_types", x.mediaTypes);
    var m := PutString(m, "source", x.source);
    var m := PutPositive(m, "max_results", x.maxResults);
    PutStrings(m, "tags", x.tags)
  }

  function SearchPaging(m: Inputs, x: Search): Inputs {
    var m := PutString(m, "sort", x.sort);
    var m := PutString(m, "order", x.order);
    var m := PutPositive(m, "page", x.page);
    var m := PutString(m, "next_token", x.nextToken);
    var m := PutString(m, "field_query", x.fieldQuery);
    PutString(m, "simple_query", x.simpleQuery)
  }

  function SearchOptions(x: Search): Inputs {
    SearchPaging(SearchFilters(x), x)
  }

  function VoiceInputs(x: VoiceDesign): Inputs {
    var m: Inputs := map["voice_prompt" := VString(x.voicePrompt), "preview_text" := VString(x.previewText),
                         "target_model" := VString(x.targetModel)];
    var m := PutString(m, "preferred_name", x.preferredName);
    var m := PutString(m, "language", x.language);
    var m := PutPositive(m, "sample_rate", x.sampleRate);
    var m := PutString(m, "response_format", x.responseFormat);
    if x.omitPreview then m["omit_preview" := VBool(true)] else m
  }

  // ---------- the nodes in task order ----------

  function Optional(classType: string, inputs: Inputs): seq<Node> {
    if inputs != map[] then [Node(classType, inputs)] else []
  }

  function When(c: bool, n: Node): seq<Node> {
    if c then [n] else []
  }

  function Loader(video: bool): string {
    if video then "LoadVideo" else "LoadImage"
  }

  function ReferenceNode(r: Reference): Node {
    Node(Loader(r.video), map["url" := VString(r.url)])
  }

  function ReferenceNodes(refs: seq<Reference>): seq<Node> {
    if refs == [] then []
    else
      ReferenceNodes(refs[..|refs| - 1])
      + When(refs[|refs| - 1].url != "", ReferenceNode(refs[|refs| - 1]))
  }

  /** The nodes before the references. */
  function Head(t: Task): seq<Node> {
    [Node("CLIPTextEncode", map["text" := VString(t.prompt)])]
    + When(t.width > 0 || t.height > 0,
           Node("EmptyLatentImage", map["width" := VInt(t.width), "height" := VInt(t.height)]))
    + When(t.negativePrompt != "", Node("NegativePrompt", map["negative_prompt" := VString(t.negativePrompt)]))
    + Optional("ImageOptions", ImageOptions(t))
    + Optional("VideoOptions", VideoOptions(t))
  }

  predicate Mixes(t: Task) {
    t.audioMix.Some? && |t.audioMix.value.audioURLs| >= 2
  }

  predicate Designs(t: Task) {
    t.voiceDesign.Some? && t.voiceDesign.value.voicePrompt != "" && t.voiceDesign.value.previewText != ""
    && t.voiceDesign.value.targetModel != ""
  }

  function MixNodes(t: Task): seq<Node> {
    if Mixes(t) then [Node("AudioMixOptions", MixOptions(t.audioMix.value))] else []
  }

  function DesignNodes(t: Task): seq<Node> {
    if Designs(t) then [Node("VoiceDesignInput", VoiceInputs(t.voiceDesign.value))] else []
  }

  function AudioTail(t: Task): seq<Node> {
    When(t.audioURL != "", Node("LoadAudio", map["audio_url" := VString(t.audioURL)]))
    + Optional("AudioOptions", if t.tts.Some? then TTSOptions(t.tts.value) else map[])
    + Optional("MusicOptions", if t.music.Some? then MusicOptions(t.music.value) else map[])
    + Optional("SFXOptions", if t.sfx.Some? then SFXOptions(t.sfx.value) else map[])
  }

  function FinalTail(t: Task): seq<Node> {
    MixNodes(t)
    + Optional("SearchOptions", if t.search.Some? then SearchOptions(t.search.value) else map[])
    + DesignNodes(t)
  }

  /** The nodes after the references. */
  function Tail(t: Task): seq<Node> {
    AudioTail(t) + FinalTail(t)
  }

  function Nodes(t: Task): seq<Node> {
    Head(t) + ReferenceNodes(t.references) + Tail(t)
  }

  // ---------- the code ----------

  /** Store a node under the next id and count on. */
  method Place(graph: Graph, nextID: nat, node: Node, ghost nodes: seq<Node>) returns (g: Graph, id: nat)
    requires graph == Numbered(nodes) && nextID == |nodes| + 1
    ensures g == Numbered(nodes + [node]) && id == |nodes| + 2
  {
    g := graph[Decimal(nextID) := node];
    id := nextID + 1;
    assert (nodes + [node])[..|nodes|] == nodes;
  }

  method PlaceOptions(graph: Graph, nextID: nat, classType: string, inputs: Inputs, ghost nodes: seq<Node>)
      returns (g: Graph, id: nat)
    requires graph == Numbered(nodes) && nextID == |nodes| + 1
    ensures g == Numbered(nodes + Optional(classType, inputs)) && id == |nodes + Optional(classType, inputs)| + 1
  {
    g, id := graph, nextID;
    if |inputs| > 0 {
      g, id := Place(g, id, Node(classType, inputs), nodes);
    } else {
      assert nodes + [] == nodes;
    }
  }

  method PlaceWhen(c: bool, graph: Graph, nextID: nat, node: Node, ghost nodes: seq<Node>) returns (g: Graph, id: nat)
    requires graph == Numbered(nodes) && nextID == |nodes| + 1
    ensures g == Numbered(nodes + When(c, node)) && id == |nodes + When(c, node)| + 1
  {
    g, id := graph, nextID;
    if c {
      g, id := Place(g, id, node, nodes);
    } else {
      assert nodes + [] == nodes;
    }
  }

  /** The image settings, merged variable by variable as the code does it. */
  method MergeImage(t: Task) returns (options: Inputs)
    ensures options == ImageOptions(t)
  {
    var imgSize, imgWM := t.size, t.watermark;
    var imgAspectRatio, imgResolution, imgQuality := "", "", t.quality;
    if t.structured.Some? {
      var s := t.structured.value;
      if s.imageSize != "" {
        imgSize := s.imageSize;
      }
      if s.imageAspectRatio != "" {
        imgAspectRatio := s.imageAspectRatio;
      }
      if s.imageResolution != "" {
        imgResolution := s.imageResolution;
      }
      if s.imageQuality != "" {
        imgQuality := s.imageQuality;
      }
      if s.imageWatermark.Some? {
        imgWM := s.imageWatermark;
      }
    }
    assert imgSize == OrElse(StructureOf(t).imageSize, t.size);
    assert imgQuality == OrElse(StructureOf(t).imageQuality, t.quality);
    options := PutString(map[], "size", imgSize);
    options := PutString(options, "aspect_ratio", imgAspectRatio);
    options := PutString(options, "resolution", imgResolution);
    options := PutString(options, "quality", imgQuality);
    options := PutBool(options, "watermark", imgWM);
  }

  method MergeVideo(t: Task) returns (options: Inputs)
    ensures options == VideoOptions(t)
  {
    var vidDur, vidSize, vidWM := t.duration, t.size, t.watermark;
    var vidAspectRatio, vidResolution, vidAudio := "", "", None;
    if t.structured.Some? {
      var s := t.structured.value;
      if s.videoDuration > 0 {
        vidDur := s.videoDuration;
      }
      if s.videoSize != "" {
        vidSize := s.videoSize;
      }
      if s.videoWatermark.Some? {
        vidWM := s.videoWatermark;
      }
      if s.videoAspectRatio != "" {
        vidAspectRatio := s.videoAspectRatio;
      }
      if s.videoResolution != "" {
        vidResolution := s.videoResolution;
      }
      if s.videoAudio.Some? {
        vidAudio := s.videoAudio;
      }
    }
    assert vidSize == OrElse(StructureOf(t).videoSize, t.size);
    options := PutString(map[], "size", vidSize);
    options := PutPositive(options, "duration", vidDur);
    options := PutString(options, "aspect_ratio", vidAspectRatio);
    options := PutString(options, "resolution", vidResolution);
    options := PutBool(options, "audio", vidAudio);
    options := PutBool(options, "watermark", vidWM);
  }

  method BuildHead(t: Task) returns (g: Graph, id: nat)
    ensures g == Numbered(Head(t)) && id == |Head(t)| + 1
  {
    ghost var n: seq<Node> := [];
    g, id := map[], 1;
    var text := Node("CLIPTextEncode", map["text" := VString(t.prompt)]);
    g, id := Place(g, id, text, n);
    n := n + [text];
    assert n == [text];
    var latent := Node("EmptyLatentImage", map["width" := VInt(t.width), "height" := VInt(t.height)]);
    g, id := PlaceWhen(t.width > 0 || t.height > 0, g, id, latent, n);
    n := n + When(t.width > 0 || t.height > 0, latent);
    var negative := Node("NegativePrompt", map["negative_prompt" := VString(t.negativePrompt)]);
    g, id := PlaceWhen(t.negativePrompt != "", g, id, negative, n);
    n := n + When(t.negativePrompt != "", negative);
    var image := MergeImage(t);
    var video := MergeVideo(t);
    g, id := PlaceOptions(g, id, "ImageOptions", image, n);
    n := n + Optional("ImageOptions", image);
    g, id := PlaceOptions(g, id, "VideoOptions", video, n);
  }

  lemma {:induction false} ReferencesNext(nodes: seq<Node>, refs: seq<Reference>, i: nat)
    requires i < |refs|
    ensures var n := nodes + ReferenceNodes(refs[..i]);
            nodes + ReferenceNodes(refs[..i + 1]) == if refs[i].url == "" then n else n + [ReferenceNode(refs[i])]
  {
    assert refs[..i + 1][..i] == refs[..i];
  }

  method BuildReferences(refs: seq<Reference>, graph: Graph, nextID: nat, ghost nodes: seq<Node>)
      returns (g: Graph, id: nat)
    requires graph == Numbered(nodes) && nextID == |nodes| + 1
    ensures g == Numbered(nodes + ReferenceNodes(refs)) && id == |nodes + ReferenceNodes(refs)| + 1
  {
    g, id := graph, nextID;
    assert nodes + [] == nodes;
    for i := 0 to |refs|
      invariant g == Numbered(nodes + ReferenceNodes(refs[..i])) && id == |nodes + ReferenceNodes(refs[..i])| + 1
    {
      var ref := refs[i];
      ghost var n := nodes + ReferenceNodes(refs[..i]);
      ReferencesNext(nodes, refs, i);
      if ref.url == "" {
        continue;
      }
      var classType := "LoadImage";
      if ref.video {
        classType := "LoadVideo";
      }
      g, id := Place(g, id, Node(classType, map["url" := VString(ref.url)]), n);
    }
    assert refs[..|refs|] == refs;
  }

  method BuildAudio(t: Task, graph: Graph, nextID: nat, ghost nodes: seq<Node>) returns (g: Graph, id: nat)
    requires graph == Numbered(nodes) && nextID == |nodes| + 1
    ensures g == Numbered(nodes + AudioTail(t)) && id == |nodes + AudioTail(t)| + 1
  {
    var audio := Node("LoadAudio", map["audio_url" := VString(t.audioURL)]);
    ghost var p1 := When(t.audioURL != "", audio);
    g, id := PlaceWhen(t.audioURL != "", graph, nextID, audio, nodes);
    var tts := if t.tts.Some? then TTSOptions(t.tts.value) else map[];
    ghost var p2 := Optional("AudioOptions", tts);
    g, id := PlaceOptions(g, id, "AudioOptions", tts, nodes + p1);
    var music := if t.music.Some? then MusicOptions(t.music.value) else map[];
    ghost var p3 := Optional("MusicOptions", music);
    g, id := PlaceOptions(g, id, "MusicOptions", music, nodes + p1 + p2);
    var sfx := if t.sfx.Some? then SFXOptions(t.sfx.value) else map[];
    g, id := PlaceOptions(g, id, "SFXOptions", sfx, nodes + p1 + p2 + p3);
    Regroup4(nodes, p1, p2, p3, Optional("SFXOptions", sfx));
  }

  method BuildFinal(t: Task, graph: Graph, nextID: nat, ghost nodes: seq<Node>) returns (g: Graph, id: nat)
    requires graph == Numbered(nodes) && nextID == |nodes| + 1
    ensures g == Numbered(nodes + FinalTail(t)) && id == |nodes + FinalTail(t)| + 1
  {
    g, id := graph, nextID;
    if Mixes(t) {
      g, id := Place(g, id, Node("AudioMixOptions", MixOptions(t.audioMix.value)), nodes);
    }
    ghost var n := nodes + MixNodes(t);
    assert !Mixes(t) ==> n == nodes;
    var search := if t.search.Some? then SearchOptions(t.search.value) else map[];
    g, id := PlaceOptions(g, id, "SearchOptions", search, n);
    n := n + Optional("SearchOptions", search);
    if Designs(t) {
      g, id := Place(g, id, Node("VoiceDesignInput", VoiceInputs(t.voiceDesign.value)), n);
    }
    assert !Designs(t) ==> n + DesignNodes(t) == n;
    Regroup3(nodes, MixNodes(t), Optional("SearchOptions", search), DesignNodes(t));
  }

  lemma {:induction false} Regroup4(n: seq<Node>, a: seq<Node>, b: seq<Node>, c: seq<Node>, d: seq<Node>)
    ensures n + a + b + c + d == n + (a + b + c + d)
  {
  }

  lemma {:induction false} Regroup2(n: seq<Node>, a: seq<Node>, b: seq<Node>)
    ensures n + a + b == n + (a + b)
  {
  }

  lemma {:induction false} Regroup3(n: seq<Node>, a: seq<Node>, b: seq<Node>, c: seq<Node>)
    ensures n + a + b + c == n + (a + b + c)
  {
  }

  /** `BuildGraph`: the nodes of the task in order, numbered from 1. */
  method Build(t: Task) returns (g: Graph)
    ensures g == Numbered(Nodes(t))
  {
    var id;
    g, id := BuildHead(t);
    g, id := BuildReferences(t.references, g, id, Head(t));
    ghost var n := Head(t) + ReferenceNodes(t.references);
    g, id := BuildAudio(t, g, id, n);
    g, id := BuildFinal(t, g, id, n + AudioTail(t));
    Regroup2(n, AudioTail(t), FinalTail(t));
  }

  // ---------- what the graph holds ----------

  predicate Named(n: Node) {
    n.classType != "" && 'A' <= n.classType[0] <= 'Z'
  }

  predicate IsLoader(n: Node) {
    n.classType == "LoadImage" || n.classType == "LoadVideo"
  }

  ghost predicate AllNamed(nodes: seq<Node>) {
    forall n :: n in nodes ==> Named(n)
  }

  ghost predicate NoLoader(nodes: seq<Node>) {
    forall n :: n in nodes ==> !IsLoader(n)
  }

  ghost predicate Ordinary(nodes: seq<Node>) {
    AllNamed(nodes) && NoLoader(nodes)
  }

  lemma {:induction false} OrdinaryAppend(a: seq<Node>, b: seq<Node>)
    requires Ordinary(a) && Ordinary(b)
    ensures Ordinary(a + b)
  {
    assert forall n :: n in a + b ==> n in a || n in b;
  }

  lemma {:induction false} HeadFacts(t: Task)
    ensures Ordinary(Head(t)) && Head(t) != []
  {
    var a := [Node("CLIPTextEncode", map["text" := VString(t.prompt)])];
    var b := When(t.width > 0 || t.height > 0,
                  Node("EmptyLatentImage", map["width" := VInt(t.width), "height" := VInt(t.height)]));
    var c := When(t.negativePrompt != "", Node("NegativePrompt", map["negative_prompt" := VString(t.negativePrompt)]));
    var d, e := Optional("ImageOptions", ImageOptions(t)), Optional("VideoOptions", VideoOptions(t));
    OrdinaryAppend(a, b);
    OrdinaryAppend(a + b, c);
    OrdinaryAppend(a + b + c, d);
    OrdinaryAppend(a + b + c + d, e);
  }

  lemma {:induction false} AudioFacts(t: Task)
    ensures Ordinary(AudioTail(t))
  {
    var a := When(t.audioURL != "", Node("LoadAudio", map["audio_url" := VString(t.audioURL)]));
    var b := Optional("AudioOptions", if t.tts.Some? then TTSOptions(t.tts.value) else map[]);
    var c := Optional("MusicOptions", if t.music.Some? then MusicOptions(t.music.value) else map[]);
    var d := Optional("SFXOptions", if t.sfx.Some? then SFXOptions(t.sfx.value) else map[]);
    OrdinaryAppend(a, b);
    OrdinaryAppend(a + b, c);
    OrdinaryAppend(a + b + c, d);
  }

  lemma {:induction false} FinalFacts(t: Task)
    ensures Ordinary(FinalTail(t))
  {
    var b := Optional("SearchOptions", if t.search.Some? then SearchOptions(t.search.value) else map[]);
    OrdinaryAppend(MixNodes(t), b);
    OrdinaryAppend(MixNodes(t) + b, DesignNodes(t));
  }

  lemma {:induction false} ReferencesNamed(refs: seq<Reference>)
    ensures AllNamed(ReferenceNodes(refs))
  {
    if refs != [] {
      ReferencesNamed(refs[..|refs| - 1]);
    }
  }

  lemma {:induction false} NumberNotBlank(k: nat)
    ensures !Blank(Decimal(k))
  {
    VisibleNotBlank(Decimal(k));
  }

  lemma {:induction false} VisibleNotBlank(s: string)
    requires s != "" && !IsSpace(s[0])
    ensures !Blank(s)
  {
    assert TrimLeft(s) == s;
    TrimRightAppend([s[0]], s[1..]);
    assert [s[0]] + s[1..] == s;
  }

  lemma {:induction false} NumberedIsValid(nodes: seq<Node>)
    requires AllNamed(nodes) && nodes != []
    ensures ValidGraph(Numbered(nodes))
  {
    NumberedExact(nodes);
    forall id | id in Numbered(nodes)
      ensures !Blank(id) && !Blank(Numbered(nodes)[id].classType)
    {
      var k :| 1 <= k <= |nodes| && id == Decimal(k);
      NumberNotBlank(k);
      assert nodes[k - 1] in nodes;
      VisibleNotBlank(nodes[k - 1].classType);
    }
    assert |Numbered(nodes)| > 0;
  }

  /** The graph of every task passes `Validate`. */
  lemma {:induction false} BuiltIsValid(t: Task)
    ensures ValidGraph(Numbered(Nodes(t)))
  {
    HeadFacts(t);
    AudioFacts(t);
    FinalFacts(t);
    ReferencesNamed(t.references);
    assert AllNamed(Nodes(t)) by {
      OrdinaryAppend(AudioTail(t), FinalTail(t));
      assert forall n :: n in Nodes(t) ==> n in Head(t) || n in ReferenceNodes(t.references) || n in Tail(t);
    }
    NumberedIsValid(Nodes(t));
  }

  /** The URLs of one kind, in task order, empty ones left out. */
  function Urls(refs: seq<Reference>, video: bool): seq<string> {
    if refs == [] then []
    else
      var r := refs[|refs| - 1];
      Urls(refs[..|refs| - 1], video) + if r.url != "" && r.video == video then [r.url] else []
  }

  function LoadNodes(urls: seq<string>, video: bool): seq<Node> {
    seq(|urls|, i requires 0 <= i < |urls| => Node(Loader(video), map["url" := VString(urls[i])]))
  }

  lemma {:induction false} OfClassSplit(a: seq<Node>, b: seq<Node>, c: string)
    ensures OfClass(a + b, c) == OfClass(a, c) + OfClass(b, c)
    decreases |b|
  {
    if b == [] {
      assert a + b == a;
    } else {
      OfClassSplit(a, b[..|b| - 1], c);
      assert (a + b)[..|a + b| - 1] == a + b[..|b| - 1];
    }
  }

  lemma {:induction false} NoneOfClass(nodes: seq<Node>, video: bool)
    requires NoLoader(nodes)
    ensures OfClass(nodes, Loader(video)) == []
  {
    if nodes != [] {
      assert nodes[|nodes| - 1] in nodes;
      NoneOfClass(nodes[..|nodes| - 1], video);
    }
  }

  lemma {:induction false} LoadersDiffer()
    ensures Loader(true) != Loader(false)
  {
    assert Loader(true)[4] == 'V' && Loader(false)[4] == 'I';
  }

  lemma {:induction false} ReferencesOfClass(refs: seq<Reference>, video: bool)
    ensures OfClass(ReferenceNodes(refs), Loader(video)) == LoadNodes(Urls(refs, video), video)
  {
    if refs != [] {
      var front, r := refs[..|refs| - 1], refs[|refs| - 1];
      ReferencesOfClass(front, video);
      OfClassSplit(ReferenceNodes(front), When(r.url != "", ReferenceNode(r)), Loader(video));
      OneOfClass(r, video);
      if r.url != "" && r.video == video {
        LoadAppend(Urls(front, video), r.url, video);
        assert Urls(refs, video) == Urls(front, video) + [r.url];
        assert r == Reference(video, r.url);
      } else {
        assert Urls(refs, video) == Urls(front, video);
      }
    }
  }

  lemma {:induction false} LoadAppend(urls: seq<string>, url: string, video: bool)
    ensures LoadNodes(urls + [url], video) == LoadNodes(urls, video) + [ReferenceNode(Reference(video, url))]
  {
  }

  lemma {:induction false} OneOfClass(r: Reference, video: bool)
    ensures OfClass(When(r.url != "", ReferenceNode(r)), Loader(video))
         == if r.url != "" && r.video == video then [ReferenceNode(r)] else []
  {
    LoadersDiffer();
    var one := When(r.url != "", ReferenceNode(r));
    if r.url != "" {
      assert one[..0] == [];
    }
  }

  /** The load nodes of a task are its non-empty reference URLs of that kind, in order. */
  lemma {:induction false} LoadersAreReferences(t: Task, video: bool)
    ensures OfClass(Nodes(t), Loader(video)) == LoadNodes(Urls(t.references, video), video)
  {
    var refs := ReferenceNodes(t.references);
    HeadFacts(t);
    AudioFacts(t);
    FinalFacts(t);
    NoneOfClass(Head(t), video);
    NoneOfClass(AudioTail(t), video);
    NoneOfClass(FinalTail(t), video);
    ReferencesOfClass(t.references, video);
    OfClassSplit(Head(t) + refs, Tail(t), Loader(video));
    OfClassSplit(Head(t), refs, Loader(video));
    OfClassSplit(AudioTail(t), FinalTail(t), Loader(video));
  }

  /** Through `FindByClassType` the built graph gives back exactly the non-empty reference
      URLs of a kind, each as often as it was listed; and in task order when the graph has at
      most nine nodes. */
  lemma {:induction false} ReferencesFound(t: Task, video: bool)
    ensures var found := NodesOf(Found(Numbered(Nodes(t)), Loader(video)));
            && multiset(found) == multiset(LoadNodes(Urls(t.references, video), video))
            && (|Nodes(t)| <= 9 ==> found == LoadNodes(Urls(t.references, video), video))
  {
    LoadersAreReferences(t, video);
    FoundBag(Nodes(t), Loader(video));
    if |Nodes(t)| <= 9 {
      FoundInOrder(Nodes(t), Loader(video));
    }
  }

  // ---------- in which order they are found ----------

  lemma {:induction false} OrdinaryAt(nodes: seq<Node>, i: nat)
    requires Ordinary(nodes) && i < |nodes|
    ensures !IsLoader(nodes[i])
  {
    assert nodes[i] in nodes;
  }

  /** Only the part of the references holds load nodes. */
  lemma {:induction false} NoLoaderOutside(t: Task, p: int)
    requires 1 <= p <= |Nodes(t)|
    requires p <= |Head(t)| || p > |Head(t)| + |ReferenceNodes(t.references)|
    ensures !IsLoader(Nodes(t)[p - 1])
  {
    HeadFacts(t);
    AudioFacts(t);
    FinalFacts(t);
    OrdinaryAppend(AudioTail(t), FinalTail(t));
    if p <= |Head(t)| {
      OrdinaryAt(Head(t), p - 1);
    } else {
      OrdinaryAt(Tail(t), p - 1 - |Head(t)| - |ReferenceNodes(t.references)|);
    }
  }

  lemma {:induction false} HeadIsShort(t: Task)
    ensures 1 <= |Head(t)| <= 5
  {
  }

  /** Different URLs have different load nodes. */
  lemma {:induction false} LoadersDistinct(t: Task, video: bool)
    requires Distinct(Urls(t.references, video))
    ensures DistinctOfClass(Nodes(t), Loader(video))
  {
    LoadersAreReferences(t, video);
    LoadNodesDistinct(Urls(t.references, video), video);
    DistinctFound(Nodes(t), Loader(video));
  }

  lemma {:induction false} LoadNodesDistinct(urls: seq<string>, video: bool)
    requires Distinct(urls)
    ensures Distinct(LoadNodes(urls, video))
  {
    var nodes := LoadNodes(urls, video);
    forall i, j | 0 <= i < j < |nodes|
      ensures nodes[i] != nodes[j]
    {
      assert nodes[i].inputs["url"] == VString(urls[i]) && nodes[j].inputs["url"] == VString(urls[j]);
    }
  }

  /** Lookup gives back the references of a kind, ids and nodes, in task order if and only if
      string order is number order on their positions. */
  lemma {:induction false} ReferencesInOrderIff(t: Task, video: bool)
    requires Distinct(Urls(t.references, video))
    ensures NodesOf(Found(Numbered(Nodes(t)), Loader(video))) == LoadNodes(Urls(t.references, video), video)
       <==> InIdOrder(Nodes(t), |Nodes(t)|, Loader(video))
  {
    LoadersAreReferences(t, video);
    LoadersDistinct(t, video);
    NodesInOrderIff(Nodes(t), Loader(video));
  }

  /** A task all of whose references are of one kind. */
  predicate OneKind(refs: seq<Reference>, video: bool) {
    forall r :: r in refs && r.url != "" ==> r.video == video
  }

  lemma {:induction false} OneKindNodes(refs: seq<Reference>, video: bool)
    requires OneKind(refs, video)
    ensures |ReferenceNodes(refs)| == |Urls(refs, video)|
    ensures forall i :: 0 <= i < |ReferenceNodes(refs)| ==> ReferenceNodes(refs)[i].classType == Loader(video)
  {
    if refs != [] {
      OneKindNodes(refs[..|refs| - 1], video);
      assert refs[|refs| - 1] in refs;
    }
  }

  /** With references of one kind only, different URLs come back in task order if and only if
      the nodes before them and the references are at most nine together: a prompt with nine
      images already comes back in another order. */
  lemma {:induction false} OneKindInOrderIff(t: Task, video: bool)
    requires Distinct(Urls(t.references, video))
    requires forall r :: r in t.references && r.url != "" ==> r.video == video
    ensures NodesOf(Found(Numbered(Nodes(t)), Loader(video))) == LoadNodes(Urls(t.references, video), video)
       <==> |Head(t)| + |Urls(t.references, video)| <= 9
  {
    ReferencesInOrderIff(t, video);
    OneKindNodes(t.references, video);
    if |Head(t)| + |Urls(t.references, video)| <= 9 {
      FewInOrder(t, video);
    } else {
      ManyOutOfOrder(t, video);
    }
  }

  lemma {:induction false} FewInOrder(t: Task, video: bool)
    requires |Head(t)| + |ReferenceNodes(t.references)| <= 9
    ensures InIdOrder(Nodes(t), |Nodes(t)|, Loader(video))
  {
    forall p | Holds(Nodes(t), p, Loader(video))
      ensures p <= 9
    {
      if p > |Head(t)| + |ReferenceNodes(t.references)| {
        NoLoaderOutside(t, p);
      }
    }
    OneDigitInOrder(Nodes(t), Loader(video));
  }

  lemma {:induction false} ReferenceAt(t: Task, i: nat)
    requires i < |ReferenceNodes(t.references)|
    ensures |Head(t)| + i < |Nodes(t)| && Nodes(t)[|Head(t)| + i] == ReferenceNodes(t.references)[i]
  {
    BetweenAt(Head(t), ReferenceNodes(t.references), Tail(t), i);
  }

  lemma {:induction false} BetweenAt(a: seq<Node>, b: seq<Node>, c: seq<Node>, i: nat)
    requires i < |b|
    ensures |a| + i < |a + b + c| && (a + b + c)[|a| + i] == b[i]
  {
  }

  lemma {:induction false} ManyOutOfOrder(t: Task, video: bool)
    requires OneKind(t.references, video) && |Head(t)| + |ReferenceNodes(t.references)| >= 10
    ensures !InIdOrder(Nodes(t), |Nodes(t)|, Loader(video))
  {
    var h, refs := |Head(t)|, ReferenceNodes(t.references);
    OneKindNodes(t.references, video);
    HeadIsShort(t);
    ReferenceAt(t, 8 - h);
    ReferenceAt(t, 9 - h);
    NineAndTen(Nodes(t), Loader(video));
  }
}
