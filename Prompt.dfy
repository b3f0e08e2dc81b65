/**
 * The instruction text the application shows and sends (App.tsx, the effect that
 * recomputes `generatedPrompt`). It is a pure function of the three selected ids
 * and of whether a style image is present; the effect re-runs whenever one of the
 * four changes.
 */
module Prompt {
  import opened Optional
  import opened Strings
  import opened StyleOptions

  // The longer sentences are written as concatenations of shorter literals, so
  // that the verifier can inspect their characters piece by piece.
  const Preamble: string := "Generate a high-quality, " + "professional product photograph."
  const AspectLead: string := "- The image should have a "
  const AspectTail: string := " aspect ratio."
  const LightingLead: string := "- The lighting must be "
  const LightingTail: string := "."
  const CameraLead: string := "- The camera perspective " + "should be a "
  const CameraTail: string := "."
  const BulletLead: string := "- "
  const StyleReference: string :=
    "Match the provided style " + "reference image's aesthetic, " + "color palette, and mood. "
  const Closing: string :=
    "The final output must be " + "just the image, with no text " + "or other annotations."

  function AspectLine(aspectRatio: string): string { AspectLead + aspectRatio + AspectTail }
  function LightingLine(lighting: string): string { LightingLead + lighting + LightingTail }
  function CameraLine(camera: string): string { CameraLead + camera + CameraTail }
  function FinalLine(hasStyleImage: bool): string {
    BulletLead + (if hasStyleImage then StyleReference else "") + Closing
  }

  /** The template literal, before `trim`: five lines separated by line breaks;
      the last one carries the style-reference sentence when a style image is present. */
  function Template(aspectRatio: string, lighting: string, camera: string, hasStyleImage: bool): string {
    Preamble + "\n" + AspectLine(aspectRatio) + "\n" + LightingLine(lighting) + "\n"
      + CameraLine(camera) + "\n" + FinalLine(hasStyleImage)
  }

  /** The lines of the template, in order. */
  function PromptLines(aspectRatio: string, lighting: string, camera: string, hasStyleImage: bool): seq<string> {
    [Preamble, AspectLine(aspectRatio), LightingLine(lighting), CameraLine(camera), FinalLine(hasStyleImage)]
  }

  // Facts about the fixed sentences, one sentence at a time.
  lemma PreambleFacts()
    ensures |Preamble| == 57 && '\n' !in Preamble && Preamble[0] == 'G'
  {
  }

  lemma StyleReferenceFacts()
    ensures |StyleReference| == 79 && '\n' !in StyleReference
  {
  }

  lemma ClosingFacts()
    ensures |Closing| == 75 && '\n' !in Closing && Closing[|Closing| - 1] == '.'
  {
  }

  lemma LeadFacts()
    ensures |AspectLead| == 26 && '\n' !in AspectLead && |AspectTail| == 14 && '\n' !in AspectTail
    ensures |LightingLead| == 23 && '\n' !in LightingLead && '\n' !in LightingTail
    ensures |CameraLead| == 37 && '\n' !in CameraLead && '\n' !in CameraTail
    ensures '\n' !in BulletLead
    ensures StartsWith(AspectLead, BulletLead) && StartsWith(LightingLead, BulletLead)
    ensures StartsWith(CameraLead, BulletLead)
  {
    assert AspectLead[..2] == BulletLead;
    assert LightingLead[..2] == BulletLead;
    assert CameraLead[..2] == BulletLead;
  }

  /** The template is its lines joined by line breaks. */
  lemma TemplateIsLines(aspectRatio: string, lighting: string, camera: string, hasStyleImage: bool)
    ensures Template(aspectRatio, lighting, camera, hasStyleImage)
         == Join(PromptLines(aspectRatio, lighting, camera, hasStyleImage), '\n')
  {
    JoinFive(Preamble, AspectLine(aspectRatio), LightingLine(lighting), CameraLine(camera),
             FinalLine(hasStyleImage), '\n');
  }

  /** `trim` leaves the template unchanged, since it starts with 'G' and ends
      with '.' whatever the selections. */
  lemma TrimIsNoOp(aspectRatio: string, lighting: string, camera: string, hasStyleImage: bool)
    ensures Trim(Template(aspectRatio, lighting, camera, hasStyleImage))
         == Template(aspectRatio, lighting, camera, hasStyleImage)
  {
    TemplateEnds(aspectRatio, lighting, camera, hasStyleImage);
    TrimUnchanged(Template(aspectRatio, lighting, camera, hasStyleImage));
  }

  /** Whatever the selections, the template starts with the 'G' of the preamble
      and ends with the '.' of the closing sentence. */
  lemma TemplateEnds(aspectRatio: string, lighting: string, camera: string, hasStyleImage: bool)
    ensures var t := Template(aspectRatio, lighting, camera, hasStyleImage);
      |t| > 0 && t[0] == 'G' && t[|t| - 1] == '.'
  {
    var t := Template(aspectRatio, lighting, camera, hasStyleImage);
    PreambleFacts();
    ClosingFacts();
    assert t[0] == Preamble[0];
    assert t[|t| - 1] == Closing[|Closing| - 1];
  }

  /** `generatedPrompt`: the trimmed template, which is its five lines joined by
      line breaks. */
  function BuildPrompt(aspectRatio: string, lighting: string, camera: string, hasStyleImage: bool): (prompt: string)
    ensures prompt == Join(PromptLines(aspectRatio, lighting, camera, hasStyleImage), '\n')
  {
    TrimIsNoOp(aspectRatio, lighting, camera, hasStyleImage);
    TemplateIsLines(aspectRatio, lighting, camera, hasStyleImage);
    Trim(Template(aspectRatio, lighting, camera, hasStyleImage))
  }

  /** The line breaks of the prompt are exactly those of the template: when no
      selected value spans lines, the prompt splits into the five lines in order. */
  lemma PromptLinesInOrder(aspectRatio: string, lighting: string, camera: string, hasStyleImage: bool)
    requires '\n' !in aspectRatio && '\n' !in lighting && '\n' !in camera
    ensures Split(BuildPrompt(aspectRatio, lighting, camera, hasStyleImage), '\n')
         == PromptLines(aspectRatio, lighting, camera, hasStyleImage)
  {
    PreambleFacts();
    StyleReferenceFacts();
    ClosingFacts();
    LeadFacts();
    var lines := PromptLines(aspectRatio, lighting, camera, hasStyleImage);
    SplitJoin(lines, '\n');
  }

  /** A line of the prompt that starts with the "- " bullet. */
  predicate IsBullet(line: string) {
    StartsWith(line, BulletLead)
  }

  lemma LinesAfterPreambleAreBullets(aspectRatio: string, lighting: string, camera: string, hasStyleImage: bool)
    ensures IsBullet(AspectLine(aspectRatio)) && IsBullet(LightingLine(lighting))
    ensures IsBullet(CameraLine(camera)) && IsBullet(FinalLine(hasStyleImage))
  {
    LeadFacts();
    Framed(AspectLead, aspectRatio, AspectTail);
    OccursWithin(AspectLine(aspectRatio), AspectLead, BulletLead, 0, 0);
    Framed(LightingLead, lighting, LightingTail);
    OccursWithin(LightingLine(lighting), LightingLead, BulletLead, 0, 0);
    Framed(CameraLead, camera, CameraTail);
    OccursWithin(CameraLine(camera), CameraLead, BulletLead, 0, 0);
    Framed(BulletLead, if hasStyleImage then StyleReference else "", Closing);
  }

  /** The preamble line is followed by exactly four bullet lines. */
  lemma FourBulletLines(aspectRatio: string, lighting: string, camera: string, hasStyleImage: bool)
    requires '\n' !in aspectRatio && '\n' !in lighting && '\n' !in camera
    ensures var lines := Split(BuildPrompt(aspectRatio, lighting, camera, hasStyleImage), '\n');
      && |lines| == 5
      && lines[0] == Preamble && !IsBullet(lines[0])
      && forall k :: 1 <= k < |lines| ==> IsBullet(lines[k])
  {
    PromptLinesInOrder(aspectRatio, lighting, camera, hasStyleImage);
    LinesAfterPreambleAreBullets(aspectRatio, lighting, camera, hasStyleImage);
    assert Preamble[0] != BulletLead[0];
  }

  /** Where the five lines sit in the prompt. */
  lemma Layout(aspectRatio: string, lighting: string, camera: string, hasStyleImage: bool)
    ensures var prompt := BuildPrompt(aspectRatio, lighting, camera, hasStyleImage);
      var l1, l2, l3, l4 := AspectLine(aspectRatio), LightingLine(lighting), CameraLine(camera), FinalLine(hasStyleImage);
      && |prompt| == |Preamble| + |l1| + |l2| + |l3| + |l4| + 4
      && OccursAt(prompt, Preamble, 0)
      && OccursAt(prompt, l1, |Preamble| + 1)
      && OccursAt(prompt, l2, |Preamble| + |l1| + 2)
      && OccursAt(prompt, l3, |Preamble| + |l1| + |l2| + 3)
      && OccursAt(prompt, l4, |Preamble| + |l1| + |l2| + |l3| + 4)
  {
    JoinFiveLayout(Preamble, AspectLine(aspectRatio), LightingLine(lighting), CameraLine(camera),
                   FinalLine(hasStyleImage), '\n');
  }

  /** Whatever the selections, the prompt opens with the preamble and closes with
      the closing sentence. */
  lemma PromptFrame(aspectRatio: string, lighting: string, camera: string, hasStyleImage: bool)
    ensures StartsWith(BuildPrompt(aspectRatio, lighting, camera, hasStyleImage), Preamble)
    ensures EndsWith(BuildPrompt(aspectRatio, lighting, camera, hasStyleImage), Closing)
  {
    JoinFiveEnds(Preamble, AspectLine(aspectRatio), LightingLine(lighting), CameraLine(camera),
                 BulletLead, if hasStyleImage then StyleReference else "", Closing, '\n');
  }

  /** The three selected values appear after the preamble, in the order aspect
      ratio, lighting, camera perspective, without overlapping. */
  lemma SelectionsInOrder(aspectRatio: string, lighting: string, camera: string, hasStyleImage: bool)
    ensures var prompt := BuildPrompt(aspectRatio, lighting, camera, hasStyleImage);
      exists i, j, k ::
        && |Preamble| < i && i + |aspectRatio| < j && j + |lighting| < k
        && OccursAt(prompt, aspectRatio, i)
        && OccursAt(prompt, lighting, j)
        && OccursAt(prompt, camera, k)
  {
    var prompt := BuildPrompt(aspectRatio, lighting, camera, hasStyleImage);
    Layout(aspectRatio, lighting, camera, hasStyleImage);
    var l1, l2, l3 := AspectLine(aspectRatio), LightingLine(lighting), CameraLine(camera);
    var s1 := |Preamble| + 1;
    var s2 := s1 + |l1| + 1;
    var s3 := s2 + |l2| + 1;
    Framed(AspectLead, aspectRatio, AspectTail);
    Framed(LightingLead, lighting, LightingTail);
    Framed(CameraLead, camera, CameraTail);
    OccursWithin(prompt, l1, aspectRatio, s1, |AspectLead|);
    OccursWithin(prompt, l2, lighting, s2, |LightingLead|);
    OccursWithin(prompt, l3, camera, s3, |CameraLead|);
    var i, j, k := s1 + |AspectLead|, s2 + |LightingLead|, s3 + |CameraLead|;
    assert |Preamble| < i && i + |aspectRatio| < j && j + |lighting| < k;
  }

  /** For choices from the option lists, the style-reference sentence occurs in
      the prompt if and only if a style image is present. */
  lemma StyleSentenceIffStyleImage(aspectRatio: string, lighting: string, camera: string, hasStyleImage: bool)
    requires aspectRatio in Ids(AspectRatios)
    requires lighting in Ids(LightingStyles)
    requires camera in Ids(CameraPerspectives)
    ensures Contains(BuildPrompt(aspectRatio, lighting, camera, hasStyleImage), StyleReference) <==> hasStyleImage
  {
    if hasStyleImage {
      StyleSentenceWithStyleImage(aspectRatio, lighting, camera);
    } else {
      IdsAreShortLines();
      NoStyleSentenceWithoutStyleImage(aspectRatio, lighting, camera);
    }
  }

  lemma StyleSentenceWithStyleImage(aspectRatio: string, lighting: string, camera: string)
    ensures Contains(BuildPrompt(aspectRatio, lighting, camera, true), StyleReference)
  {
    JoinFiveEnds(Preamble, AspectLine(aspectRatio), LightingLine(lighting), CameraLine(camera),
                 BulletLead, StyleReference, Closing, '\n');
  }

  /** Without a style image every line of the prompt is shorter than the style
      sentence, as long as the selected values are, so the sentence cannot occur. */
  lemma NoStyleSentenceWithoutStyleImage(aspectRatio: string, lighting: string, camera: string)
    requires |aspectRatio| <= 38 && |lighting| <= 54 && |camera| <= 40
    ensures !Contains(BuildPrompt(aspectRatio, lighting, camera, false), StyleReference)
  {
    PreambleFacts();
    StyleReferenceFacts();
    ClosingFacts();
    LeadFacts();
    NotInFiveShortPieces(Preamble, AspectLine(aspectRatio), LightingLine(lighting), CameraLine(camera),
                         FinalLine(false), '\n', StyleReference);
  }

  /** The four inputs of the prompt. */
  datatype Selection = Selection(aspectRatio: string, lighting: string, camera: string, hasStyleImage: bool)

  function StyleFlag(line: string): Option<bool> {
    if line == FinalLine(false) then Some(false)
    else if line == FinalLine(true) then Some(true)
    else None
  }

  /** Reads the four inputs back from a prompt; the inverse of `BuildPrompt`. */
  function ReadSelection(prompt: string): Option<Selection> {
    var lines := Split(prompt, '\n');
    if |lines| != 5 || lines[0] != Preamble then None
    else
      match (Between(lines[1], AspectLead, AspectTail), Between(lines[2], LightingLead, LightingTail),
             Between(lines[3], CameraLead, CameraTail), StyleFlag(lines[4]))
      case (Some(a), Some(l), Some(c), Some(s)) => Some(Selection(a, l, c, s))
      case _ => None
  }

  predicate SingleLine(sel: Selection) {
    '\n' !in sel.aspectRatio && '\n' !in sel.lighting && '\n' !in sel.camera
  }

  function PromptOf(sel: Selection): string {
    BuildPrompt(sel.aspectRatio, sel.lighting, sel.camera, sel.hasStyleImage)
  }

  /** The selections can be read back from the prompt: the prompt depends on
      all four inputs and on nothing else. */
  lemma ReadSelectionInvertsBuildPrompt(sel: Selection)
    requires SingleLine(sel)
    ensures ReadSelection(PromptOf(sel)) == Some(sel)
  {
    var Selection(a, l, c, s) := sel;
    PromptLinesInOrder(a, l, c, s);
    BetweenFramed(AspectLead, a, AspectTail);
    BetweenFramed(LightingLead, l, LightingTail);
    BetweenFramed(CameraLead, c, CameraTail);
    assert |FinalLine(true)| != |FinalLine(false)|;
  }

  /** Every prompt that reads back is the prompt of what it reads back as. */
  lemma BuildPromptInvertsReadSelection(prompt: string)
    requires ReadSelection(prompt).Some?
    ensures SingleLine(ReadSelection(prompt).value)
    ensures PromptOf(ReadSelection(prompt).value) == prompt
  {
    var sel := ReadSelection(prompt).value;
    var lines := Split(prompt, '\n');
    BetweenSome(lines[1], AspectLead, AspectTail);
    BetweenSome(lines[2], LightingLead, LightingTail);
    BetweenSome(lines[3], CameraLead, CameraTail);
    assert lines[1] == AspectLine(sel.aspectRatio);
    assert '\n' !in lines[1] && '\n' !in lines[2] && '\n' !in lines[3];
    assert lines == PromptLines(sel.aspectRatio, sel.lighting, sel.camera, sel.hasStyleImage);
    JoinSplit(prompt, '\n');
  }

  /** Different selections give different prompts. */
  lemma PromptIsInjective(sel1: Selection, sel2: Selection)
    requires SingleLine(sel1) && SingleLine(sel2)
    requires PromptOf(sel1) == PromptOf(sel2)
    ensures sel1 == sel2
  {
    ReadSelectionInvertsBuildPrompt(sel1);
    ReadSelectionInvertsBuildPrompt(sel2);
  }
}
