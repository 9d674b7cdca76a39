/** What lookup by class gives back from the graph of a task (client.go, `BuildGraph`, and
    workflow/types.go, `FindByClassType`): for every class but the load nodes at most one
    node, and in an option node exactly the settings that apply. */
module OptionValues {
  import opened Common
  import opened WorkflowGraph
  import opened BuildGraph

  // ---------- one node of a class ----------

  /** What `FindByClassType` finds under a name in the graph of a task. */
  function Lookup(t: Task, c: string): seq<Node> {
    NodesOf(Found(Numbered(Nodes(t)), c))
  }

  /** Class names of the same length differ in a letter. */
  lemma {:induction false} NamesDiffer()
    ensures "ImageOptions"[0] == 'I' && "VideoOptions"[0] == 'V' && "AudioOptions"[0] == 'A' && "MusicOptions"[0] == 'M'
    ensures "EmptyLatentImage"[0] == 'E' && "VoiceDesignInput"[0] == 'V'
    ensures "CLIPTextEncode"[0] == 'C' && "NegativePrompt"[0] == 'N'
    ensures "LoadAudio"[4] == 'A' && Loader(true)[4] == 'V' && Loader(false)[4] == 'I'
    ensures |Loader(true)| == |Loader(false)| == 9
  {
  }

  function Pick(c: string, name: string, nodes: seq<Node>): seq<Node> {
    if c == name then nodes else []
  }

  lemma {:induction false} OnePart(nodes: seq<Node>, name: string, c: string)
    requires |nodes| <= 1 && forall n :: n in nodes ==> n.classType == name
    ensures OfClass(nodes, c) == Pick(c, name, nodes)
  {
    if nodes != [] {
      assert nodes == [nodes[0]] && nodes[..0] == [];
      assert nodes[0] in nodes;
    }
  }

  lemma {:induction false} NoReferences(refs: seq<Reference>, c: string)
    requires c != Loader(true) && c != Loader(false)
    ensures OfClass(ReferenceNodes(refs), c) == []
  {
    if refs != [] {
      var front, r := refs[..|refs| - 1], refs[|refs| - 1];
      NoReferences(front, c);
      OfClassSplit(ReferenceNodes(front), When(r.url != "", ReferenceNode(r)), c);
      OnePart(When(r.url != "", ReferenceNode(r)), Loader(r.video), c);
    }
  }

  lemma {:induction false} OfClassOf5(a: seq<Node>, b: seq<Node>, d: seq<Node>, e: seq<Node>, f: seq<Node>, c: string)
    ensures OfClass(a + b + d + e + f, c)
         == OfClass(a, c) + OfClass(b, c) + OfClass(d, c) + OfClass(e, c) + OfClass(f, c)
  {
    OfClassSplit(a + b + d + e, f, c);
    OfClassSplit(a + b + d, e, c);
    OfClassSplit(a + b, d, c);
    OfClassSplit(a, b, c);
  }

  lemma {:induction false} OfClassOf4(a: seq<Node>, b: seq<Node>, d: seq<Node>, e: seq<Node>, c: string)
    ensures OfClass(a + b + d + e, c) == OfClass(a, c) + OfClass(b, c) + OfClass(d, c) + OfClass(e, c)
  {
    OfClassSplit(a + b + d, e, c);
    OfClassSplit(a + b, d, c);
    OfClassSplit(a, b, c);
  }

  lemma {:induction false} OfClassOf3(a: seq<Node>, b: seq<Node>, d: seq<Node>, c: string)
    ensures OfClass(a + b + d, c) == OfClass(a, c) + OfClass(b, c) + OfClass(d, c)
  {
    OfClassSplit(a + b, d, c);
    OfClassSplit(a, b, c);
  }

  function PromptNodes(t: Task): seq<Node> {
    [Node("CLIPTextEncode", map["text" := VString(t.prompt)])]
  }

  function LatentNodes(t: Task): seq<Node> {
    When(t.width > 0 || t.height > 0,
         Node("EmptyLatentImage", map["width" := VInt(t.width), "height" := VInt(t.height)]))
  }

  function NegativeNodes(t: Task): seq<Node> {
    When(t.negativePrompt != "", Node("NegativePrompt", map["negative_prompt" := VString(t.negativePrompt)]))
  }

  function AudioNodes(t: Task): seq<Node> {
    When(t.audioURL != "", Node("LoadAudio", map["audio_url" := VString(t.audioURL)]))
  }

  predicate HeadName(c: string) {
    c in {"CLIPTextEncode", "EmptyLatentImage", "NegativePrompt", "ImageOptions", "VideoOptions"}
  }

  predicate AudioName(c: string) {
    c in {"LoadAudio", "AudioOptions", "MusicOptions", "SFXOptions"}
  }

  predicate FinalName(c: string) {
    c in {"AudioMixOptions", "SearchOptions", "VoiceDesignInput"}
  }

  lemma {:induction false} NamesApart(c: string)
    ensures HeadName(c) ==> !AudioName(c) && !FinalName(c)
    ensures AudioName(c) ==> !FinalName(c)
    ensures HeadName(c) || AudioName(c) || FinalName(c) ==> c != Loader(true) && c != Loader(false)
  {
    NamesDiffer();
  }

  function HeadPick(c: string, n1: seq<Node>, n2: seq<Node>, n3: seq<Node>, n4: seq<Node>, n5: seq<Node>): seq<Node> {
    Pick(c, "CLIPTextEncode", n1) + Pick(c, "EmptyLatentImage", n2) + Pick(c, "NegativePrompt", n3)
    + Pick(c, "ImageOptions", n4) + Pick(c, "VideoOptions", n5)
  }

  lemma {:induction false} HeadPicks(c: string, n1: seq<Node>, n2: seq<Node>, n3: seq<Node>, n4: seq<Node>,
                                     n5: seq<Node>)
    ensures c == "CLIPTextEncode" ==> HeadPick(c, n1, n2, n3, n4, n5) == n1
    ensures c == "EmptyLatentImage" ==> HeadPick(c, n1, n2, n3, n4, n5) == n2
    ensures c == "NegativePrompt" ==> HeadPick(c, n1, n2, n3, n4, n5) == n3
    ensures c == "ImageOptions" ==> HeadPick(c, n1, n2, n3, n4, n5) == n4
    ensures c == "VideoOptions" ==> HeadPick(c, n1, n2, n3, n4, n5) == n5
    ensures !HeadName(c) ==> HeadPick(c, n1, n2, n3, n4, n5) == []
  {
    NamesDiffer();
  }

  function AudioPick(c: string, n1: seq<Node>, n2: seq<Node>, n3: seq<Node>, n4: seq<Node>): seq<Node> {
    Pick(c, "LoadAudio", n1) + Pick(c, "AudioOptions", n2) + Pick(c, "MusicOptions", n3) + Pick(c, "SFXOptions", n4)
  }

  lemma {:induction false} AudioPicks(c: string, n1: seq<Node>, n2: seq<Node>, n3: seq<Node>, n4: seq<Node>)
    ensures c == "LoadAudio" ==> AudioPick(c, n1, n2, n3, n4) == n1
    ensures c == "AudioOptions" ==> AudioPick(c, n1, n2, n3, n4) == n2
    ensures c == "MusicOptions" ==> AudioPick(c, n1, n2, n3, n4) == n3
    ensures c == "SFXOptions" ==> AudioPick(c, n1, n2, n3, n4) == n4
    ensures !AudioName(c) ==> AudioPick(c, n1, n2, n3, n4) == []
  {
    NamesDiffer();
  }

  function FinalPick(c: string, n1: seq<Node>, n2: seq<Node>, n3: seq<Node>): seq<Node> {
    Pick(c, "AudioMixOptions", n1) + Pick(c, "SearchOptions", n2) + Pick(c, "VoiceDesignInput", n3)
  }

  lemma {:induction false} FinalPicks(c: string, n1: seq<Node>, n2: seq<Node>, n3: seq<Node>)
    ensures c == "AudioMixOptions" ==> FinalPick(c, n1, n2, n3) == n1
    ensures c == "SearchOptions" ==> FinalPick(c, n1, n2, n3) == n2
    ensures c == "VoiceDesignInput" ==> FinalPick(c, n1, n2, n3) == n3
    ensures !FinalName(c) ==> FinalPick(c, n1, n2, n3) == []
  {
  }

  function ImageNodes(t: Task): seq<Node> {
    Optional("ImageOptions", ImageOptions(t))
  }

  function VideoNodes(t: Task): seq<Node> {
    Optional("VideoOptions", VideoOptions(t))
  }

  function SpeechNodes(t: Task): seq<Node> {
    Optional("AudioOptions", if t.tts.Some? then TTSOptions(t.tts.value) else map[])
  }

  function MusicNodes(t: Task): seq<Node> {
    Optional("MusicOptions", if t.music.Some? then MusicOptions(t.music.value) else map[])
  }

  function EffectNodes(t: Task): seq<Node> {
    Optional("SFXOptions", if t.sfx.Some? then SFXOptions(t.sfx.value) else map[])
  }

  function SearchNodes(t: Task): seq<Node> {
    Optional("SearchOptions", if t.search.Some? then SearchOptions(t.search.value) else map[])
  }

  lemma {:induction false} WhenPart(b: bool, n: Node, c: string)
    ensures OfClass(When(b, n), c) == Pick(c, n.classType, When(b, n))
  {
    OnePart(When(b, n), n.classType, c);
  }

  lemma {:induction false} OptionalPart(name: string, inputs: Inputs, c: string)
    ensures OfClass(Optional(name, inputs), c) == Pick(c, name, Optional(name, inputs))
  {
    OnePart(Optional(name, inputs), name, c);
  }

  /** The nodes are all of the named class: of class `c` are all of them or none. */
  ghost predicate IsPart(nodes: seq<Node>, name: string, c: string) {
    OfClass(nodes, c) == Pick(c, name, nodes)
  }

  lemma {:induction false} HeadParts(t: Task, c: string)
    ensures IsPart(PromptNodes(t), "CLIPTextEncode", c) && IsPart(LatentNodes(t), "EmptyLatentImage", c)
    ensures IsPart(NegativeNodes(t), "NegativePrompt", c) && IsPart(ImageNodes(t), "ImageOptions", c)
    ensures IsPart(VideoNodes(t), "VideoOptions", c)
  {
    OnePart(PromptNodes(t), "CLIPTextEncode", c);
    WhenPart(t.width > 0 || t.height > 0,
             Node("EmptyLatentImage", map["width" := VInt(t.width), "height" := VInt(t.height)]), c);
    WhenPart(t.negativePrompt != "", Node("NegativePrompt", map["negative_prompt" := VString(t.negativePrompt)]), c);
    OptionalPart("ImageOptions", ImageOptions(t), c);
    OptionalPart("VideoOptions", VideoOptions(t), c);
  }

  lemma {:induction false} HeadGathered(n1: seq<Node>, n2: seq<Node>, n3: seq<Node>, n4: seq<Node>, n5: seq<Node>,
                                        c: string)
    requires IsPart(n1, "CLIPTextEncode", c) && IsPart(n2, "EmptyLatentImage", c) && IsPart(n3, "NegativePrompt", c)
    requires IsPart(n4, "ImageOptions", c) && IsPart(n5, "VideoOptions", c)
    ensures OfClass(n1 + n2 + n3 + n4 + n5, c) == HeadPick(c, n1, n2, n3, n4, n5)
  {
    OfClassOf5(n1, n2, n3, n4, n5, c);
  }

  lemma {:induction false} HeadOfClass(t: Task, c: string)
    ensures OfClass(Head(t), c)
         == HeadPick(c, PromptNodes(t), LatentNodes(t), NegativeNodes(t), ImageNodes(t), VideoNodes(t))
  {
    HeadParts(t, c);
    HeadGathered(PromptNodes(t), LatentNodes(t), NegativeNodes(t), ImageNodes(t), VideoNodes(t), c);
  }

  lemma {:induction false} AudioParts(t: Task, c: string)
    ensures IsPart(AudioNodes(t), "LoadAudio", c) && IsPart(SpeechNodes(t), "AudioOptions", c)
    ensures IsPart(MusicNodes(t), "MusicOptions", c) && IsPart(EffectNodes(t), "SFXOptions", c)
  {
    WhenPart(t.audioURL != "", Node("LoadAudio", map["audio_url" := VString(t.audioURL)]), c);
    OptionalPart("AudioOptions", if t.tts.Some? then TTSOptions(t.tts.value) else map[], c);
    OptionalPart("MusicOptions", if t.music.Some? then MusicOptions(t.music.value) else map[], c);
    OptionalPart("SFXOptions", if t.sfx.Some? then SFXOptions(t.sfx.value) else map[], c);
  }

  lemma {:induction false} AudioGathered(n1: seq<Node>, n2: seq<Node>, n3: seq<Node>, n4: seq<Node>, c: string)
    requires IsPart(n1, "LoadAudio", c) && IsPart(n2, "AudioOptions", c)
    requires IsPart(n3, "MusicOptions", c) && IsPart(n4, "SFXOptions", c)
    ensures OfClass(n1 + n2 + n3 + n4, c) == AudioPick(c, n1, n2, n3, n4)
  {
    OfClassOf4(n1, n2, n3, n4, c);
  }

  lemma {:induction false} AudioOfClass(t: Task, c: string)
    ensures OfClass(AudioTail(t), c) == AudioPick(c, AudioNodes(t), SpeechNodes(t), MusicNodes(t), EffectNodes(t))
  {
    AudioParts(t, c);
    AudioGathered(AudioNodes(t), SpeechNodes(t), MusicNodes(t), EffectNodes(t), c);
  }

  lemma {:induction false} FinalParts(t: Task, c: string)
    ensures IsPart(MixNodes(t), "AudioMixOptions", c) && IsPart(SearchNodes(t), "SearchOptions", c)
    ensures IsPart(DesignNodes(t), "VoiceDesignInput", c)
  {
    OnePart(MixNodes(t), "AudioMixOptions", c);
    OptionalPart("SearchOptions", if t.search.Some? then SearchOptions(t.search.value) else map[], c);
    OnePart(DesignNodes(t), "VoiceDesignInput", c);
  }

  lemma {:induction false} FinalGathered(n1: seq<Node>, n2: seq<Node>, n3: seq<Node>, c: string)
    requires IsPart(n1, "AudioMixOptions", c) && IsPart(n2, "SearchOptions", c) && IsPart(n3, "VoiceDesignInput", c)
    ensures OfClass(n1 + n2 + n3, c) == FinalPick(c, n1, n2, n3)
  {
    OfClassOf3(n1, n2, n3, c);
  }

  lemma {:induction false} FinalOfClass(t: Task, c: string)
    ensures OfClass(FinalTail(t), c) == FinalPick(c, MixNodes(t), SearchNodes(t), DesignNodes(t))
  {
    FinalParts(t, c);
    FinalGathered(MixNodes(t), SearchNodes(t), DesignNodes(t), c);
  }

  /** Which nodes of a class there are outside of the references. */
  lemma {:induction false} HeadHolds(t: Task, c: string)
    ensures c == "CLIPTextEncode" ==> OfClass(Head(t), c) == PromptNodes(t)
    ensures c == "EmptyLatentImage" ==> OfClass(Head(t), c) == LatentNodes(t)
    ensures c == "NegativePrompt" ==> OfClass(Head(t), c) == NegativeNodes(t)
    ensures c == "ImageOptions" ==> OfClass(Head(t), c) == ImageNodes(t)
    ensures c == "VideoOptions" ==> OfClass(Head(t), c) == VideoNodes(t)
    ensures !HeadName(c) ==> OfClass(Head(t), c) == []
  {
    HeadOfClass(t, c);
    HeadPicks(c, PromptNodes(t), LatentNodes(t), NegativeNodes(t), ImageNodes(t), VideoNodes(t));
  }

  lemma {:induction false} AudioHolds(t: Task, c: string)
    ensures c == "LoadAudio" ==> OfClass(AudioTail(t), c) == AudioNodes(t)
    ensures c == "AudioOptions" ==> OfClass(AudioTail(t), c) == SpeechNodes(t)
    ensures c == "MusicOptions" ==> OfClass(AudioTail(t), c) == MusicNodes(t)
    ensures c == "SFXOptions" ==> OfClass(AudioTail(t), c) == EffectNodes(t)
    ensures !AudioName(c) ==> OfClass(AudioTail(t), c) == []
  {
    AudioOfClass(t, c);
    AudioPicks(c, AudioNodes(t), SpeechNodes(t), MusicNodes(t), EffectNodes(t));
  }

  lemma {:induction false} FinalHolds(t: Task, c: string)
    ensures c == "AudioMixOptions" ==> OfClass(FinalTail(t), c) == MixNodes(t)
    ensures c == "SearchOptions" ==> OfClass(FinalTail(t), c) == SearchNodes(t)
    ensures c == "VoiceDesignInput" ==> OfClass(FinalTail(t), c) == DesignNodes(t)
    ensures !FinalName(c) ==> OfClass(FinalTail(t), c) == []
  {
    FinalOfClass(t, c);
    FinalPicks(c, MixNodes(t), SearchNodes(t), DesignNodes(t));
  }

  lemma {:induction false} OneNode(a: seq<Node>, b: seq<Node>)
    requires multiset(a) == multiset(b) && |b| <= 1
    ensures a == b
  {
    assert |a| == |multiset(a)| == |b|;
    if b != [] {
      assert a[0] in multiset(b);
    }
  }

  /** In a graph of any size: if four lists of nodes have at most one node of a class, lookup
      of that class finds it, and nothing else. */
  lemma {:induction false} FindsIn(h: seq<Node>, r: seq<Node>, a: seq<Node>, f: seq<Node>, c: string, x: seq<Node>)
    requires OfClass(h, c) + OfClass(r, c) + (OfClass(a, c) + OfClass(f, c)) == x && |x| <= 1
    ensures NodesOf(Found(Numbered(h + r + (a + f)), c)) == x
  {
    OfClassSplit(h + r, a + f, c);
    OfClassSplit(h, r, c);
    OfClassSplit(a, f, c);
    FoundBag(h + r + (a + f), c);
    OneNode(NodesOf(Found(Numbered(h + r + (a + f)), c)), x);
  }

  lemma {:induction false} LookupFinds(t: Task, c: string, x: seq<Node>, y: seq<Node>, z: seq<Node>)
    requires c != Loader(true) && c != Loader(false)
    requires OfClass(Head(t), c) == x && OfClass(AudioTail(t), c) == y && OfClass(FinalTail(t), c) == z
    requires |x + y + z| <= 1
    ensures Lookup(t, c) == x + y + z
  {
    NoReferences(t.references, c);
    Gather(x, y, z);
    FindsIn(Head(t), ReferenceNodes(t.references), AudioTail(t), FinalTail(t), c, x + y + z);
  }

  lemma {:induction false} Gather(x: seq<Node>, y: seq<Node>, z: seq<Node>)
    ensures x + [] + (y + z) == x + y + z
  {
  }

  // ---------- class by class ----------

  lemma {:induction false} NotInHead(t: Task, c: string)
    requires !HeadName(c)
    ensures OfClass(Head(t), c) == []
  {
    HeadHolds(t, c);
  }

  lemma {:induction false} NotInAudio(t: Task, c: string)
    requires !AudioName(c)
    ensures OfClass(AudioTail(t), c) == []
  {
    AudioHolds(t, c);
  }

  lemma {:induction false} NotInFinal(t: Task, c: string)
    requires !FinalName(c)
    ensures OfClass(FinalTail(t), c) == []
  {
    FinalHolds(t, c);
  }

  lemma {:induction false} AmongEmpty(x: seq<Node>)
    ensures x + [] + [] == x && [] + x + [] == x && [] + [] + x == x
  {
  }

  lemma {:induction false} HeadFinds(t: Task, c: string, x: seq<Node>)
    requires HeadName(c) && OfClass(Head(t), c) == x && |x| <= 1
    ensures Lookup(t, c) == x
  {
    NamesApart(c);
    AmongEmpty(x);
    NotInAudio(t, c);
    NotInFinal(t, c);
    LookupFinds(t, c, x, [], []);
  }

  lemma {:induction false} AudioFinds(t: Task, c: string, x: seq<Node>)
    requires AudioName(c) && OfClass(AudioTail(t), c) == x && |x| <= 1
    ensures Lookup(t, c) == x
  {
    NamesApart(c);
    AmongEmpty(x);
    NotInHead(t, c);
    NotInFinal(t, c);
    LookupFinds(t, c, [], x, []);
  }

  lemma {:induction false} FinalFinds(t: Task, c: string, x: seq<Node>)
    requires FinalName(c) && OfClass(FinalTail(t), c) == x && |x| <= 1
    ensures Lookup(t, c) == x
  {
    NamesApart(c);
    AmongEmpty(x);
    NotInHead(t, c);
    NotInAudio(t, c);
    LookupFinds(t, c, [], [], x);
  }

  lemma {:induction false} PromptFound(t: Task)
    ensures Lookup(t, "CLIPTextEncode") == PromptNodes(t)
  {
    HeadHolds(t, "CLIPTextEncode");
    HeadFinds(t, "CLIPTextEncode", PromptNodes(t));
  }

  lemma {:induction false} LatentFound(t: Task)
    ensures Lookup(t, "EmptyLatentImage") == LatentNodes(t)
  {
    HeadHolds(t, "EmptyLatentImage");
    HeadFinds(t, "EmptyLatentImage", LatentNodes(t));
  }

  lemma {:induction false} NegativeFound(t: Task)
    ensures Lookup(t, "NegativePrompt") == NegativeNodes(t)
  {
    HeadHolds(t, "NegativePrompt");
    HeadFinds(t, "NegativePrompt", NegativeNodes(t));
  }

  lemma {:induction false} ImageFound(t: Task)
    ensures Lookup(t, "ImageOptions") == ImageNodes(t)
  {
    HeadHolds(t, "ImageOptions");
    HeadFinds(t, "ImageOptions", ImageNodes(t));
  }

  lemma {:induction false} VideoFound(t: Task)
    ensures Lookup(t, "VideoOptions") == VideoNodes(t)
  {
    HeadHolds(t, "VideoOptions");
    HeadFinds(t, "VideoOptions", VideoNodes(t));
  }

  lemma {:induction false} AudioFound(t: Task)
    ensures Lookup(t, "LoadAudio") == AudioNodes(t)
  {
    AudioHolds(t, "LoadAudio");
    AudioFinds(t, "LoadAudio", AudioNodes(t));
  }

  lemma {:induction false} SpeechFound(t: Task)
    ensures Lookup(t, "AudioOptions") == SpeechNodes(t)
  {
    AudioHolds(t, "AudioOptions");
    AudioFinds(t, "AudioOptions", SpeechNodes(t));
  }

  lemma {:induction false} MusicFound(t: Task)
    ensures Lookup(t, "MusicOptions") == MusicNodes(t)
  {
    AudioHolds(t, "MusicOptions");
    AudioFinds(t, "MusicOptions", MusicNodes(t));
  }

  lemma {:induction false} EffectFound(t: Task)
    ensures Lookup(t, "SFXOptions") == EffectNodes(t)
  {
    AudioHolds(t, "SFXOptions");
    AudioFinds(t, "SFXOptions", EffectNodes(t));
  }

  lemma {:induction false} MixFound(t: Task)
    ensures Lookup(t, "AudioMixOptions") == MixNodes(t)
  {
    FinalHolds(t, "AudioMixOptions");
    FinalFinds(t, "AudioMixOptions", MixNodes(t));
  }

  lemma {:induction false} SearchFound(t: Task)
    ensures Lookup(t, "SearchOptions") == SearchNodes(t)
  {
    FinalHolds(t, "SearchOptions");
    FinalFinds(t, "SearchOptions", SearchNodes(t));
  }

  lemma {:induction false} VoiceFound(t: Task)
    ensures Lookup(t, "VoiceDesignInput") == DesignNodes(t)
  {
    FinalHolds(t, "VoiceDesignInput");
    FinalFinds(t, "VoiceDesignInput", DesignNodes(t));
  }

  // ---------- settings of a node ----------

  /** The settings of the node that was found; none if there is no node. */
  function Settings(nodes: seq<Node>): Inputs {
    if nodes == [] then map[] else nodes[0].inputs
  }

  /** At most one node, of this class and with some setting. */
  predicate AtMostOne(nodes: seq<Node>, c: string) {
    nodes == [] || (|nodes| == 1 && nodes[0].classType == c && nodes[0].inputs != map[])
  }

  // ---------- one key ----------

  /** The key is there exactly for a value that is set, and holds it. */
  ghost predicate HasString(m: Inputs, k: string, v: string) {
    (k in m <==> v != "") && (k in m ==> m[k] == VString(v))
  }

  ghost predicate HasPositive(m: Inputs, k: string, v: int) {
    (k in m <==> v > 0) && (k in m ==> m[k] == VInt(v))
  }

  ghost predicate HasBool(m: Inputs, k: string, v: Option<bool>) {
    (k in m <==> v.Some?) && (k in m ==> m[k] == VBool(v.value))
  }

  ghost predicate HasStrings(m: Inputs, k: string, v: seq<string>) {
    (k in m <==> v != []) && (k in m ==> m[k] == VStrings(v))
  }

  // ---------- structured settings win over flat ones ----------

  /** Size, quality and watermark: the structured ones where they are set and the flat ones
      otherwise; aspect ratio and resolution only the structured ones; and no other key. */
  ghost predicate ImageSettings(m: Inputs, t: Task) {
    && m.Keys <= {"size", "aspect_ratio", "resolution", "quality", "watermark"}
    && (t.structured.None? ==>
          && HasString(m, "size", t.size) && HasString(m, "quality", t.quality)
          && HasBool(m, "watermark", t.watermark)
          && "aspect_ratio" !in m && "resolution" !in m)
    && (t.structured.Some? ==>
          var s := t.structured.value;
          && (s.imageSize != "" ==> HasString(m, "size", s.imageSize))
          && (s.imageSize == "" ==> HasString(m, "size", t.size))
          && (s.imageQuality != "" ==> HasString(m, "quality", s.imageQuality))
          && (s.imageQuality == "" ==> HasString(m, "quality", t.quality))
          && (s.imageWatermark.Some? ==> HasBool(m, "watermark", s.imageWatermark))
          && (s.imageWatermark.None? ==> HasBool(m, "watermark", t.watermark))
          && HasString(m, "aspect_ratio", s.imageAspectRatio)
          && HasString(m, "resolution", s.imageResolution))
  }

  lemma {:induction false} ImageMerged(t: Task)
    ensures ImageSettings(ImageOptions(t), t)
  {
  }

  lemma {:induction false} ImageRead(t: Task, found: seq<Node>)
    requires found == ImageNodes(t)
    ensures AtMostOne(found, "ImageOptions") && ImageSettings(Settings(found), t)
  {
    ImageMerged(t);
  }

  /** The image settings found in the graph of any task. */
  lemma {:induction false} ImageValues(t: Task)
    ensures var found := Lookup(t, "ImageOptions");
            AtMostOne(found, "ImageOptions") && ImageSettings(Settings(found), t)
  {
    ImageFound(t);
    ImageRead(t, Lookup(t, "ImageOptions"));
  }

  ghost predicate VideoSettings(m: Inputs, t: Task) {
    && m.Keys <= {"size", "duration", "aspect_ratio", "resolution", "audio", "watermark"}
    && (t.structured.None? ==>
          && HasString(m, "size", t.size) && HasPositive(m, "duration", t.duration)
          && HasBool(m, "watermark", t.watermark)
          && "aspect_ratio" !in m && "resolution" !in m && "audio" !in m)
    && (t.structured.Some? ==>
          var s := t.structured.value;
          && (s.videoSize != "" ==> HasString(m, "size", s.videoSize))
          && (s.videoSize == "" ==> HasString(m, "size", t.size))
          && (s.videoDuration > 0 ==> HasPositive(m, "duration", s.videoDuration))
          && (s.videoDuration <= 0 ==> HasPositive(m, "duration", t.duration))
          && (s.videoWatermark.Some? ==> HasBool(m, "watermark", s.videoWatermark))
          && (s.videoWatermark.None? ==> HasBool(m, "watermark", t.watermark))
          && HasString(m, "aspect_ratio", s.videoAspectRatio)
          && HasString(m, "resolution", s.videoResolution)
          && HasBool(m, "audio", s.videoAudio))
  }

  lemma {:induction false} VideoKeys(t: Task)
    ensures VideoOptions(t).Keys <= {"size", "duration", "aspect_ratio", "resolution", "audio", "watermark"}
  {
  }

  /** What the video settings are, over structured settings that may all be unset. */
  lemma {:induction false} VideoHolds(t: Task, s: Structured)
    requires s == StructureOf(t)
    ensures var m := VideoOptions(t);
            && HasString(m, "size", OrElse(s.videoSize, t.size))
            && HasPositive(m, "duration", if s.videoDuration > 0 then s.videoDuration else t.duration)
            && HasBool(m, "watermark", if s.videoWatermark.Some? then s.videoWatermark else t.watermark)
            && HasString(m, "aspect_ratio", s.videoAspectRatio) && HasString(m, "resolution", s.videoResolution)
            && HasBool(m, "audio", s.videoAudio)
  {
  }

  lemma {:induction false} VideoMerged(t: Task)
    ensures VideoSettings(VideoOptions(t), t)
  {
    VideoKeys(t);
    VideoHolds(t, StructureOf(t));
  }

  lemma {:induction false} VideoRead(t: Task, found: seq<Node>)
    requires found == VideoNodes(t)
    ensures AtMostOne(found, "VideoOptions") && VideoSettings(Settings(found), t)
  {
    VideoMerged(t);
  }

  lemma {:induction false} VideoValues(t: Task)
    ensures var found := Lookup(t, "VideoOptions");
            AtMostOne(found, "VideoOptions") && VideoSettings(Settings(found), t)
  {
    VideoFound(t);
    VideoRead(t, Lookup(t, "VideoOptions"));
  }

  // ---------- the other option nodes ----------

  ghost predicate SpeechSettings(m: Inputs, x: TTS) {
    && m.Keys <= {"voice", "language_type", "instructions", "optimize_instructions"}
    && HasString(m, "voice", x.voice) && HasString(m, "language_type", x.languageType)
    && HasString(m, "instructions", x.instructions) && HasBool(m, "optimize_instructions", x.optimize)
  }

  lemma {:induction false} SpeechHolds(x: TTS)
    ensures SpeechSettings(TTSOptions(x), x)
  {
  }

  lemma {:induction false} SpeechRead(t: Task, found: seq<Node>)
    requires found == SpeechNodes(t)
    ensures AtMostOne(found, "AudioOptions")
            && (if t.tts.Some? then SpeechSettings(Settings(found), t.tts.value) else found == [])
  {
    if t.tts.Some? {
      SpeechHolds(t.tts.value);
    }
  }

  lemma {:induction false} SpeechValues(t: Task)
    ensures var found := Lookup(t, "AudioOptions");
            AtMostOne(found, "AudioOptions")
            && (if t.tts.Some? then SpeechSettings(Settings(found), t.tts.value) else found == [])
  {
    SpeechFound(t);
    SpeechRead(t, Lookup(t, "AudioOptions"));
  }

  ghost predicate MusicSettings(m: Inputs, x: Music) {
    && m.Keys <= {"lyrics", "is_instrumental", "lyrics_optimizer", "output_format", "sample_rate", "bitrate", "format"}
    && HasString(m, "lyrics", x.lyrics) && HasBool(m, "is_instrumental", x.isInstrumental)
    && HasBool(m, "lyrics_optimizer", x.lyricsOptimizer) && HasString(m, "output_format", x.outputFormat)
    && HasPositive(m, "sample_rate", x.sampleRate) && HasPositive(m, "bitrate", x.bitrate)
    && HasString(m, "format", x.format)
  }

  lemma {:induction false} MusicKeys(x: Music)
    ensures MusicOptions(x).Keys <= {"lyrics", "is_instrumental", "lyrics_optimizer", "output_format", "sample_rate",
                                     "bitrate", "format"}
  {
  }

  lemma {:induction false} SongHolds(x: Music)
    ensures var m := MusicOptions(x);
            && HasString(m, "lyrics", x.lyrics) && HasBool(m, "is_instrumental", x.isInstrumental)
            && HasBool(m, "lyrics_optimizer", x.lyricsOptimizer)
  {
  }

  lemma {:induction false} SoundHolds(x: Music)
    ensures var m := MusicOptions(x);
            && HasString(m, "output_format", x.outputFormat) && HasPositive(m, "sample_rate", x.sampleRate)
            && HasPositive(m, "bitrate", x.bitrate) && HasString(m, "format", x.format)
  {
  }

  lemma {:induction false} MusicRead(t: Task, found: seq<Node>)
    requires found == MusicNodes(t)
    ensures AtMostOne(found, "MusicOptions")
            && (if t.music.Some? then MusicSettings(Settings(found), t.music.value) else found == [])
  {
    if t.music.Some? {
      MusicKeys(t.music.value);
      SongHolds(t.music.value);
      SoundHolds(t.music.value);
    }
  }

  lemma {:induction false} MusicValues(t: Task)
    ensures var found := Lookup(t, "MusicOptions");
            AtMostOne(found, "MusicOptions")
            && (if t.music.Some? then MusicSettings(Settings(found), t.music.value) else found == [])
  {
    MusicFound(t);
    MusicRead(t, Lookup(t, "MusicOptions"));
  }

  ghost predicate EffectSettings(m: Inputs, x: SFX) {
    m.Keys <= {"duration", "format"} && HasPositive(m, "duration", x.duration) && HasString(m, "format", x.format)
  }

  lemma {:induction false} EffectHolds(x: SFX)
    ensures EffectSettings(SFXOptions(x), x)
  {
  }

  lemma {:induction false} EffectRead(t: Task, found: seq<Node>)
    requires found == EffectNodes(t)
    ensures AtMostOne(found, "SFXOptions")
            && (if t.sfx.Some? then EffectSettings(Settings(found), t.sfx.value) else found == [])
  {
    if t.sfx.Some? {
      EffectHolds(t.sfx.value);
    }
  }

  lemma {:induction false} EffectValues(t: Task)
    ensures var found := Lookup(t, "SFXOptions");
            AtMostOne(found, "SFXOptions")
            && (if t.sfx.Some? then EffectSettings(Settings(found), t.sfx.value) else found == [])
  {
    EffectFound(t);
    EffectRead(t, Lookup(t, "SFXOptions"));
  }

  ghost predicate MixSettings(m: Inputs, x: AudioMix) {
    && m.Keys <= {"audio_urls", "volumes", "delays", "duration", "format"}
    && "audio_urls" in m && m["audio_urls"] == VStrings(x.audioURLs)
    && ("volumes" in m <==> x.volumes != []) && ("volumes" in m ==> m["volumes"] == VReals(x.volumes))
    && ("delays" in m <==> x.delays != []) && ("delays" in m ==> m["delays"] == VInts(x.delays))
    && HasPositive(m, "duration", x.duration) && HasString(m, "format", x.format)
  }

  lemma {:induction false} MixHolds(x: AudioMix)
    ensures MixSettings(MixOptions(x), x)
  {
  }

  lemma {:induction false} MixRead(t: Task, found: seq<Node>)
    requires found == MixNodes(t)
    ensures AtMostOne(found, "AudioMixOptions")
            && (found != [] <==> t.audioMix.Some? && |t.audioMix.value.audioURLs| >= 2)
            && (found != [] ==> MixSettings(Settings(found), t.audioMix.value))
  {
    if t.audioMix.Some? {
      MixHolds(t.audioMix.value);
    }
  }

  /** A mixing node is there exactly for a mix of at least two tracks. */
  lemma {:induction false} MixValues(t: Task)
    ensures var found := Lookup(t, "AudioMixOptions");
            AtMostOne(found, "AudioMixOptions")
            && (found != [] <==> t.audioMix.Some? && |t.audioMix.value.audioURLs| >= 2)
            && (found != [] ==> MixSettings(Settings(found), t.audioMix.value))
  {
    MixFound(t);
    MixRead(t, Lookup(t, "AudioMixOptions"));
  }

  const FILTER_KEYS: set<string> := {"mode", "media_types", "source", "max_results", "tags"}
  const PAGING_KEYS: set<string> := {"sort", "order", "page", "next_token", "field_query", "simple_query"}

  ghost predicate FilterSettings(m: Inputs, x: Search) {
    && HasString(m, "mode", x.mode) && HasStrings(m, "media_types", x.mediaTypes)
    && HasString(m, "source", x.source) && HasPositive(m, "max_results", x.maxResults)
    && HasStrings(m, "tags", x.tags)
  }

  ghost predicate PagingSettings(m: Inputs, x: Search) {
    && HasString(m, "sort", x.sort) && HasString(m, "order", x.order) && HasPositive(m, "page", x.page)
    && HasString(m, "next_token", x.nextToken) && HasString(m, "field_query", x.fieldQuery)
    && HasString(m, "simple_query", x.simpleQuery)
  }

  lemma {:induction false} FilterHolds(x: Search)
    ensures SearchFilters(x).Keys <= FILTER_KEYS && FilterSettings(SearchFilters(x), x)
  {
  }

  lemma {:induction false} OrderHolds(m: Inputs, x: Search)
    requires "sort" !in m && "order" !in m && "page" !in m
    ensures var r := SearchPaging(m, x);
            HasString(r, "sort", x.sort) && HasString(r, "order", x.order) && HasPositive(r, "page", x.page)
  {
  }

  lemma {:induction false} QueryHolds(m: Inputs, x: Search)
    requires "next_token" !in m && "field_query" !in m && "simple_query" !in m
    ensures var r := SearchPaging(m, x);
            && HasString(r, "next_token", x.nextToken) && HasString(r, "field_query", x.fieldQuery)
            && HasString(r, "simple_query", x.simpleQuery)
  {
  }

  lemma {:induction false} PagingKeeps(m: Inputs, x: Search, k: string)
    ensures k !in PAGING_KEYS ==> (k in SearchPaging(m, x) <==> k in m) && (k in m ==> SearchPaging(m, x)[k] == m[k])
  {
  }

  lemma {:induction false} FilterKept(m: Inputs, x: Search)
    requires FilterSettings(m, x)
    ensures FilterSettings(SearchPaging(m, x), x)
  {
    PagingKeeps(m, x, "mode");
    PagingKeeps(m, x, "media_types");
    PagingKeeps(m, x, "source");
    PagingKeeps(m, x, "max_results");
    PagingKeeps(m, x, "tags");
  }

  lemma {:induction false} PagingKeys(m: Inputs, x: Search)
    ensures SearchPaging(m, x).Keys <= m.Keys + PAGING_KEYS
  {
    forall k | k in SearchPaging(m, x)
      ensures k in m.Keys + PAGING_KEYS
    {
      PagingKeeps(m, x, k);
    }
  }

  ghost predicate SearchSettings(m: Inputs, x: Search) {
    m.Keys <= FILTER_KEYS + PAGING_KEYS && FilterSettings(m, x) && PagingSettings(m, x)
  }

  lemma {:induction false} PagingHolds(m: Inputs, x: Search)
    requires m.Keys <= FILTER_KEYS && FilterSettings(m, x)
    ensures SearchSettings(SearchPaging(m, x), x)
  {
    OrderHolds(m, x);
    QueryHolds(m, x);
    FilterKept(m, x);
    PagingKeys(m, x);
  }

  lemma {:induction false} SearchHolds(x: Search)
    ensures SearchSettings(SearchOptions(x), x)
  {
    FilterHolds(x);
    PagingHolds(SearchFilters(x), x);
  }

  lemma {:induction false} SearchRead(t: Task, found: seq<Node>)
    requires found == SearchNodes(t)
    ensures AtMostOne(found, "SearchOptions")
            && (if t.search.Some? then SearchSettings(Settings(found), t.search.value) else found == [])
  {
    if t.search.Some? {
      SearchHolds(t.search.value);
    }
  }

  lemma {:induction false} SearchValues(t: Task)
    ensures var found := Lookup(t, "SearchOptions");
            AtMostOne(found, "SearchOptions")
            && (if t.search.Some? then SearchSettings(Settings(found), t.search.value) else found == [])
  {
    SearchFound(t);
    SearchRead(t, Lookup(t, "SearchOptions"));
  }

  ghost predicate VoiceSettings(m: Inputs, x: VoiceDesign) {
    && m.Keys <= {"voice_prompt", "preview_text", "target_model", "preferred_name", "language", "sample_rate",
                  "response_format", "omit_preview"}
    && "voice_prompt" in m && m["voice_prompt"] == VString(x.voicePrompt)
    && "preview_text" in m && m["preview_text"] == VString(x.previewText)
    && "target_model" in m && m["target_model"] == VString(x.targetModel)
    && HasString(m, "preferred_name", x.preferredName) && HasString(m, "language", x.language)
    && HasPositive(m, "sample_rate", x.sampleRate) && HasString(m, "response_format", x.responseFormat)
    && ("omit_preview" in m <==> x.omitPreview) && (x.omitPreview ==> m["omit_preview"] == VBool(true))
  }

  lemma {:induction false} VoiceKeys(x: VoiceDesign)
    ensures VoiceInputs(x).Keys <= {"voice_prompt", "preview_text", "target_model", "preferred_name", "language",
                                    "sample_rate", "response_format", "omit_preview"}
  {
  }

  lemma {:induction false} VoiceGiven(x: VoiceDesign)
    ensures var m := VoiceInputs(x);
            && "voice_prompt" in m && m["voice_prompt"] == VString(x.voicePrompt)
            && "preview_text" in m && m["preview_text"] == VString(x.previewText)
            && "target_model" in m && m["target_model"] == VString(x.targetModel)
  {
  }

  lemma {:induction false} VoiceChosen(x: VoiceDesign)
    ensures var m := VoiceInputs(x);
            && HasString(m, "preferred_name", x.preferredName) && HasString(m, "language", x.language)
            && HasPositive(m, "sample_rate", x.sampleRate) && HasString(m, "response_format", x.responseFormat)
            && ("omit_preview" in m <==> x.omitPreview) && (x.omitPreview ==> m["omit_preview"] == VBool(true))
  {
  }

  lemma {:induction false} VoiceRead(t: Task, found: seq<Node>)
    requires found == DesignNodes(t)
    ensures AtMostOne(found, "VoiceDesignInput")
            && (found != [] <==> t.voiceDesign.Some? && t.voiceDesign.value.voicePrompt != ""
                                 && t.voiceDesign.value.previewText != "" && t.voiceDesign.value.targetModel != "")
            && (found != [] ==> VoiceSettings(Settings(found), t.voiceDesign.value))
  {
    if t.voiceDesign.Some? {
      VoiceKeys(t.voiceDesign.value);
      VoiceGiven(t.voiceDesign.value);
      VoiceChosen(t.voiceDesign.value);
    }
  }

  /** A voice design node is there exactly for a design with all three required texts. */
  lemma {:induction false} VoiceValues(t: Task)
    ensures var found := Lookup(t, "VoiceDesignInput");
            AtMostOne(found, "VoiceDesignInput")
            && (found != [] <==> t.voiceDesign.Some? && t.voiceDesign.value.voicePrompt != ""
                                 && t.voiceDesign.value.previewText != "" && t.voiceDesign.value.targetModel != "")
            && (found != [] ==> VoiceSettings(Settings(found), t.voiceDesign.value))
  {
    VoiceFound(t);
    VoiceRead(t, Lookup(t, "VoiceDesignInput"));
  }
}
