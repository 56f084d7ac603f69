/** The label handling of the jiant evaluation: `strip_rucos_label`, the
    `renames` tables, the task dispatch of `eval`, the target-task rule of
    `train_jiant` and `is_best_model`. */
module JiantLabels {
  import opened Wrappers
  import opened Text
  import opened RsgPointwise

  /** `\w` of a `str` pattern, on the characters the data uses: ASCII letters,
      digits and `_`, and the letters of the Cyrillic blocks. */
  predicate IsWordChar(c: char) {
    ('a' <= c <= 'z') || ('A' <= c <= 'Z') || ('0' <= c <= '9') || c == '_' ||
    (0x400 <= c as int <= 0x481) || (0x48A <= c as int <= 0x52F)
  }

  predicate NoWordChar(s: string) {
    forall i :: 0 <= i < |s| ==> !IsWordChar(s[i])
  }

  /** `s` is empty or ends with a word character. */
  predicate EndsInWord(s: string) {
    s == [] || IsWordChar(s[|s| - 1])
  }

  /** Length of the run of non-word characters at the end of `s`. */
  function TrailingNonWord(s: string): (n: nat)
    ensures n <= |s|
    decreases |s|
  {
    if s != [] && !IsWordChar(s[|s| - 1]) then 1 + TrailingNonWord(s[..|s| - 1]) else 0
  }

  /** `strip_rucos_label`: `re.sub(r'\W+$', '', label)`. The leftmost match of
      `\W+$` starts where the final run of non-word characters starts and runs to
      the end (a final newline is itself non-word), so the substitution drops
      that run. */
  function StripRucosLabel(value: string): string {
    value[..|value| - TrailingNonWord(value)]
  }

  /** What is dropped is non-word, and what is kept is empty or ends in a word character. */
  lemma {:induction false} StripShape(s: string)
    ensures s == StripRucosLabel(s) + s[|StripRucosLabel(s)|..]
    ensures NoWordChar(s[|StripRucosLabel(s)|..])
    ensures EndsInWord(StripRucosLabel(s))
    decreases |s|
  {
    if s != [] && !IsWordChar(s[|s| - 1]) {
      var init := s[..|s| - 1];
      StripShape(init);
      assert StripRucosLabel(s) == StripRucosLabel(init);
      var k := |StripRucosLabel(s)|;
      assert s[k..] == init[k..] + [s[|s| - 1]];
    }
  }

  /** A word-ended text followed by non-word characters loses exactly those characters. */
  lemma {:induction false} StripUnique(p: string, t: string)
    requires EndsInWord(p) && NoWordChar(t)
    ensures StripRucosLabel(p + t) == p
    decreases |t|
  {
    if t == [] {
      assert p + t == p;
      assert TrailingNonWord(p) == 0;
    } else {
      var init := t[..|t| - 1];
      StripUnique(p, init);
      assert (p + t)[..|p + t| - 1] == p + init;
      assert TrailingNonWord(p + t) == 1 + TrailingNonWord(p + init);
    }
  }

  /** Stripping twice is stripping once. */
  lemma StripIdempotent(s: string)
    ensures StripRucosLabel(StripRucosLabel(s)) == StripRucosLabel(s)
  {
    var r := StripRucosLabel(s);
    StripShape(s);
    StripUnique(r, []);
    assert r + [] == r;
  }

  /** The `renames` table of `eval_other`, with `renames.get(label, label)`. The
      keys `False` and `True` also catch the integers 0 and 1, which map to
      themselves. */
  function Rename(value: Label): Label {
    match value
    case Bool(b) => Int(if b then 1 else 0)
    case Int(n) => Int(n)
    case Str(s) =>
      if s == "false" || s == "False" || s == "neutral" || s == "not_entailment" then Int(0)
      else if s == "true" || s == "True" || s == "entailment" then Int(1)
      else if s == "contradiction" then Int(2)
      else Str(s)
  }

  /** The strings `renames` lists. */
  predicate Known(s: string) {
    s in ["false", "False", "neutral", "not_entailment", "true", "True", "entailment", "contradiction"]
  }

  /** Every boolean, integer and listed string becomes a class integer, the
      listed strings and booleans one of 0, 1, 2; any other string is passed
      through; renaming twice is renaming once. */
  lemma RenameMeaning(value: Label)
    ensures Rename(value).Int? <==> !value.Str? || Known(value.s)
    ensures value.Str? && !Known(value.s) ==> Rename(value) == value
    ensures (value.Bool? || (value.Str? && Known(value.s))) ==> 0 <= Rename(value).n <= 2
    ensures Rename(Rename(value)) == Rename(value)
  {
  }

  /** `one_hot(..., num_classes=(3 if name == RCB else 2))`. */
  function NumClasses(name: string): (n: nat)
    ensures n == 3 <==> name == "rcb"
    ensures n == 2 <==> name != "rcb"
  {
    if name == "rcb" then 3 else 2
  }

  /** The `renames` table of `eval_lidirus`: any other label raises `KeyError`. */
  function LidirusRename(value: string): (r: Result<int>)
    ensures r.Ok? <==> value == "entailment" || value == "not_entailment"
    ensures r.Ok? ==> (r.value == 1 <==> value == "entailment")
    ensures r.Err? ==> r.error == KeyError
  {
    if value == "not_entailment" then Ok(0)
    else if value == "entailment" then Ok(1)
    else Err(KeyError)
  }

  datatype Route = ToMuserc | ToRucos | ToLidirus | ToOther

  /** `eval`: muserc, rucos and lidirus have their own scoring path, every other task goes to `eval_other`. */
  function EvalRoute(name: string): (r: Route)
    ensures r == ToMuserc <==> name == "muserc"
    ensures r == ToRucos <==> name == "rucos"
    ensures r == ToLidirus <==> name == "lidirus"
    ensures r == ToOther <==> name !in ["muserc", "rucos", "lidirus"]
  {
    if name == "muserc" then ToMuserc
    else if name == "rucos" then ToRucos
    else if name == "lidirus" then ToLidirus
    else ToOther
  }

  /** `train_jiant`: terra is trained with lidirus as a second target task; every
      other task is its own single target. */
  function TargetTasks(task: string): (r: string)
    ensures r != task <==> task == "terra"
    ensures task == "terra" ==> r == "\"terra,lidirus\""
  {
    if task == "terra" then "\"terra,lidirus\"" else task
  }

  /** `is_best_model`: `fnmatch(filename, 'model_*.best.th')`, case-sensitive,
      where `*` matches any text, the empty text included. */
  predicate IsBestModel(filename: string) {
    |filename| >= 14 && StartsWith(filename, "model_") && EndsWith(filename, ".best.th")
  }

  /** Every `model_<anything>.best.th` matches. */
  lemma BestModelOf(middle: string)
    ensures IsBestModel("model_" + middle + ".best.th")
  {
    var f := "model_" + middle + ".best.th";
    assert f[..6] == "model_";
    assert f[|f| - 8..] == ".best.th";
  }

  /** Every match is `model_<middle>.best.th` for the text between the two fixed parts. */
  lemma BestModelMiddle(filename: string)
    requires IsBestModel(filename)
    ensures filename == "model_" + filename[6..|filename| - 8] + ".best.th"
  {
    var f := filename;
    assert f == f[..6] + f[6..|f| - 8] + f[|f| - 8..];
  }
}
