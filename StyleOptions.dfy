/**
 * The three fixed option lists the user chooses from (constants.ts). The `id`
 * of an option is the value that goes into the prompt; the `caption` (the source's `label`) is shown on
 * its button.
 */
module StyleOptions {

  datatype StyleOption = StyleOption(id: string, caption: string)

  const AspectRatios: seq<StyleOption> := [
    StyleOption("1:1", "Square"),
    StyleOption("16:9", "Widescreen"),
    StyleOption("9:16", "Vertical"),
    StyleOption("4:3", "Standard"),
    StyleOption("3:2", "Classic")
  ]

  const LightingStyles: seq<StyleOption> := [
    StyleOption("soft studio lighting", "Soft Studio"),
    StyleOption("dramatic side lighting", "Dramatic"),
    StyleOption("natural sunlight", "Natural Light"),
    StyleOption("neon ambient glow", "Neon Glow"),
    StyleOption("cinematic moody lighting", "Cinematic")
  ]

  const CameraPerspectives: seq<StyleOption> := [
    StyleOption("front-on eye-level shot", "Eye-Level"),
    StyleOption("high-angle shot", "High Angle"),
    StyleOption("low-angle shot", "Low Angle"),
    StyleOption("dutch angle shot", "Dutch Angle"),
    StyleOption("macro close-up shot", "Macro")
  ]

  /** The ids of a list, in order. */
  function Ids(options: seq<StyleOption>): seq<string> {
    seq(|options|, k requires 0 <= k < |options| => options[k].id)
  }

  /** The option buttons use the id as React key and compare ids to mark the
      selected button, so no two options of a list may share an id. */
  predicate DistinctIds(options: seq<StyleOption>) {
    forall i, j :: 0 <= i < j < |options| ==> options[i].id != options[j].id
  }

  predicate IsDigits(s: string) {
    forall k :: 0 <= k < |s| ==> '0' <= s[k] <= '9'
  }

  /** `width:height`, both non-empty runs of decimal digits. */
  predicate IsRatio(s: string) {
    exists k :: 0 < k < |s| - 1 && s[k] == ':' && IsDigits(s[..k]) && IsDigits(s[k + 1..])
  }

  /** Each list has five entries, so the `[0]` used for the initial selection exists. */
  lemma FiveOptionsEach()
    ensures |AspectRatios| == 5 && |LightingStyles| == 5 && |CameraPerspectives| == 5
  {
  }

  /** The initial selections of the application. */
  lemma DefaultSelections()
    ensures AspectRatios[0].id == "1:1"
    ensures LightingStyles[0].id == "soft studio lighting"
    ensures CameraPerspectives[0].id == "front-on eye-level shot"
  {
  }

  lemma IdsAreDistinct()
    ensures DistinctIds(AspectRatios) && DistinctIds(LightingStyles) && DistinctIds(CameraPerspectives)
  {
  }

  lemma IdsAreNonEmpty()
    ensures forall id :: id in Ids(AspectRatios) ==> id != ""
    ensures forall id :: id in Ids(LightingStyles) ==> id != ""
    ensures forall id :: id in Ids(CameraPerspectives) ==> id != ""
  {
  }

  lemma AspectRatioLiteralsAreRatios()
    ensures IsRatio("1:1") && IsRatio("16:9") && IsRatio("9:16") && IsRatio("4:3") && IsRatio("3:2")
  {
    assert "1:1"[1] == ':' && IsDigits("1:1"[..1]) && IsDigits("1:1"[2..]);
    assert "16:9"[2] == ':' && IsDigits("16:9"[..2]) && IsDigits("16:9"[3..]);
    assert "9:16"[1] == ':' && IsDigits("9:16"[..1]) && IsDigits("9:16"[2..]);
    assert "4:3"[1] == ':' && IsDigits("4:3"[..1]) && IsDigits("4:3"[2..]);
    assert "3:2"[1] == ':' && IsDigits("3:2"[..1]) && IsDigits("3:2"[2..]);
  }

  /** Every aspect-ratio id has the form digits ':' digits. */
  lemma AspectRatioIdsAreRatios()
    ensures forall id :: id in Ids(AspectRatios) ==> IsRatio(id)
  {
    AspectRatioIdsInOrder();
    AspectRatioLiteralsAreRatios();
  }

  /** The ids of each list, in order. */
  lemma AspectRatioIdsInOrder()
    ensures Ids(AspectRatios) == ["1:1", "16:9", "9:16", "4:3", "3:2"]
  {
  }

  lemma LightingIdsInOrder()
    ensures Ids(LightingStyles) == ["soft studio lighting", "dramatic side lighting",
                                    "natural sunlight", "neon ambient glow", "cinematic moody lighting"]
  {
  }

  lemma CameraIdsInOrder()
    ensures Ids(CameraPerspectives) == ["front-on eye-level shot", "high-angle shot",
                                        "low-angle shot", "dutch angle shot", "macro close-up shot"]
  {
  }

  /** Every id is at most `n` characters long and holds no line break. */
  predicate ShortLines(ids: seq<string>, n: nat) {
    forall id :: id in ids ==> |id| <= n && '\n' !in id
  }

  // The literal id lists, checked one list at a time.
  lemma AspectRatioLiteralsShort()
    ensures ShortLines(["1:1", "16:9", "9:16", "4:3", "3:2"], 4)
  {
  }

  lemma LightingLiteralsShort()
    ensures ShortLines(["soft studio lighting", "dramatic side lighting",
                        "natural sunlight", "neon ambient glow", "cinematic moody lighting"], 24)
  {
  }

  lemma CameraLiteralsShort()
    ensures ShortLines(["front-on eye-level shot", "high-angle shot",
                        "low-angle shot", "dutch angle shot", "macro close-up shot"], 23)
  {
  }

  /** Bounds on the ids the prompt is built from: short, and on one line. */
  lemma IdsAreShortLines()
    ensures ShortLines(Ids(AspectRatios), 4)
    ensures ShortLines(Ids(LightingStyles), 24)
    ensures ShortLines(Ids(CameraPerspectives), 23)
  {
    AspectRatioIdsInOrder();
    AspectRatioLiteralsShort();
    LightingIdsInOrder();
    LightingLiteralsShort();
    CameraIdsInOrder();
    CameraLiteralsShort();
  }
}
