/**
  What a submitted value is saved as, said without the validator's own steps:
  which texts count as a number, a truth value or a fact's name, and what each
  of them becomes.
 */
module ValidatorValues {
  import opened Wrappers
  import opened Text
  import opened TextForms
  import opened RuleValidator
  import RL = RuleValidatorLaws
  import C = Condition

  // --- numbers --------------------------------------------------------------------------

  type Int64 = n: C.JsonInt | IsI64(n)

  /** `t` is a way to write the 64-bit number `n`. */
  ghost predicate NumberText(t: string, n: int) {
    IsI64(n) && exists core :: Spaced(t, core) && Numeral(core, n)
  }

  /** A text is read as a number exactly if it is a way to write it. */
  lemma NumberTextExactly(t: string, n: int)
    ensures WholeNumber(C.JString(t)) == Some(n) <==> NumberText(t, n)
  {
    hide Trim, Spaced, Numeral, ParseI64;
    if WholeNumber(C.JString(t)) == Some(n) {
      ParseExactly(Trim(t), n);
      NumeralIsTrimmed(Trim(t), n);
      TrimExactly(t, Trim(t));
    }
    if NumberText(t, n) {
      var core :| Spaced(t, core) && Numeral(core, n);
      NumeralIsTrimmed(core, n);
      TrimExactly(t, core);
      ParseExactly(core, n);
    }
  }

  /** What an item of a list counts as: a number by itself, or a text for one. */
  ghost predicate StandsFor(v: C.Json, n: int) {
    || (v.JInt? && v.n == n && IsI64(n))
    || (v.JString? && NumberText(v.s, n))
  }

  lemma StandsForExactly(v: C.Json, n: int)
    ensures StandsFor(v, n) <==> WholeNumber(v) == Some(n) && IsI64(n)
  {
    hide NumberText, ParseI64, Trim;
    if v.JString? {
      NumberTextExactly(v.s, n);
      assert NumberText(v.s, n) ==> IsI64(n) by { NumberTextIsI64(v.s, n); }
    }
  }

  lemma NumberTextIsI64(t: string, n: int)
    ensures NumberText(t, n) ==> IsI64(n)
  {
  }

  function JsonInts(ns: seq<Int64>): (vs: seq<C.Json>)
    ensures |vs| == |ns| && forall i :: 0 <= i < |ns| ==> vs[i] == C.JInt(ns[i])
  {
    seq(|ns|, i requires 0 <= i < |ns| => C.JInt(ns[i]))
  }

  predicate IsWholeNumber(v: C.Json) {
    WholeNumber(v).Some? && IsI64(WholeNumber(v).value)
  }

  lemma {:induction false} IntsOneByOne(items: seq<C.Json>)
    ensures NormalizedInts(items).Ok? <==> forall i :: 0 <= i < |items| ==> IsWholeNumber(items[i])
    ensures NormalizedInts(items).Ok? ==>
              var out := NormalizedInts(items).value;
              |out| == |items| && forall i :: 0 <= i < |items| ==> out[i] == C.JInt(WholeNumber(items[i]).value)
  {
    hide WholeNumber;
    if items != [] {
      IntsOneByOne(items[..|items| - 1]);
    }
  }

  /** A list of numbers is saved number by number, in order. */
  lemma IntListExactly(items: seq<C.Json>, ns: seq<Int64>)
    ensures NormalizedInts(items) == Ok(JsonInts(ns))
       <==> |ns| == |items| && forall i :: 0 <= i < |ns| ==> StandsFor(items[i], ns[i])
  {
    hide StandsFor, WholeNumber, IsI64, NormalizedInts;
    IntsOneByOne(items);
    if |ns| == |items| {
      forall i | 0 <= i < |ns|
        ensures StandsFor(items[i], ns[i]) <==> WholeNumber(items[i]) == Some(ns[i]) && IsI64(ns[i])
      {
        StandsForExactly(items[i], ns[i]);
      }
      if NormalizedInts(items).Ok? && forall i :: 0 <= i < |ns| ==> StandsFor(items[i], ns[i]) {
        assert NormalizedInts(items).value == JsonInts(ns);
      }
    }
  }

  /** An array of numbers, or of texts for them, is saved as those numbers. */
  lemma IntArrayIsSaved(items: seq<C.Json>, ns: seq<Int64>)
    requires ns != []
    ensures NormalizedIntList(C.JArray(items)) == Ok(C.JArray(JsonInts(ns)))
       <==> |ns| == |items| && forall i :: 0 <= i < |ns| ==> StandsFor(items[i], ns[i])
  {
    hide StandsFor, NormalizedInts;
    IntListExactly(items, ns);
  }

  predicate NoneBlank(fields: seq<string>) {
    forall f <- fields :: Trim(f) != ""
  }

  lemma {:induction false} FieldsAreTrimmed(fields: seq<string>)
    requires NoneBlank(fields)
    ensures |NonBlankFields(fields)| == |fields|
    ensures forall i :: 0 <= i < |fields| ==> NonBlankFields(fields)[i] == C.JString(Trim(fields[i]))
  {
    hide Trim;
    if fields != [] {
      FieldsAreTrimmed(fields[1..]);
    }
  }

  lemma NumberTextHasNoComma(t: string, n: int)
    requires NumberText(t, n)
    ensures ',' !in t && Trim(t) != "" && NumberText(Trim(t), n)
  {
    hide Trim, Numeral;
    var core :| Spaced(t, core) && Numeral(core, n);
    NumeralIsTrimmed(core, n);
    TrimExactly(t, core);
    assert AllSpace("") && core == "" + core + "";
  }

  /** Numbers written one after another, with commas between them, are saved as those numbers. */
  lemma CommaListIsSaved(texts: seq<string>, ns: seq<Int64>)
    requires ns != [] && |texts| == |ns|
    requires forall i :: 0 <= i < |ns| ==> NumberText(texts[i], ns[i])
    ensures NormalizedIntList(C.JString(JoinCommas(texts))) == Ok(C.JArray(JsonInts(ns)))
  {
    hide NumberText, NormalizedInts, NonBlankFields, Trim, Split, JoinCommas;
    forall i | 0 <= i < |ns|
      ensures ',' !in texts[i] && Trim(texts[i]) != "" && NumberText(Trim(texts[i]), ns[i])
    {
      NumberTextHasNoComma(texts[i], ns[i]);
    }
    assert texts != [];
    SplitUndoesJoin(texts);
    FieldsAreTrimmed(texts);
    IntListExactly(NonBlankFields(texts), ns);
  }

  /** A number box is saved as the number written in it. */
  lemma NumberIsSaved(t: string, n: Int64)
    ensures NormalizedInt(C.JString(t)) == Ok(C.JInt(n)) <==> NumberText(t, n)
  {
    hide Trim, NumberText, ParseI64;
    NumberTextExactly(t, n);
    if NumberText(t, n) {
      NumberTextHasNoComma(t, n);
      NumberTextIsI64(t, n);
    }
  }

  /** A JSON number is saved as it is; one beyond 64 bits as the largest that fits. */
  lemma JsonNumberIsSaved(n: C.JsonInt)
    ensures NormalizedInt(C.JInt(n)) == Ok(C.JInt(if n <= 0x7fff_ffff_ffff_ffff then n else 0x7fff_ffff_ffff_ffff))
  {
  }

  /** The two bounds of a "between" are saved as they were entered, the lower one first. */
  lemma BetweenIsSaved(target: C.Target, low: string, high: string, m: Int64, n: Int64, regex: C.RegexEngine)
    requires target.Kind().IntKind?
    ensures ValidatedCondition(
              ConditionInput(Some(target), Some(C.Between), C.JString(low), Some(C.JString(high))), regex)
            == Ok(C.Condition(target, C.Between, C.JInt(m), Some(C.JInt(n))))
       <==> NumberText(low, m) && NumberText(high, n)
  {
    hide NumberText, NormalizedInt;
    NumberIsSaved(low, m);
    NumberIsSaved(high, n);
  }

  // --- truth values ---------------------------------------------------------------------

  /** The texts for yes and for no, and no others, are saved as truth values. */
  lemma TruthTextExactly(t: string)
    ensures NormalizedBool(C.JString(t)) == Ok(C.JBool(true))
       <==> Spelled(t, "true") || Spelled(t, "1") || Spelled(t, "yes")
    ensures NormalizedBool(C.JString(t)) == Ok(C.JBool(false))
       <==> Spelled(t, "false") || Spelled(t, "0") || Spelled(t, "no")
  {
    hide Trim, Lower, Spelled;
    SpellingIsExact(t, "true");
    SpellingIsExact(t, "1");
    SpellingIsExact(t, "yes");
    SpellingIsExact(t, "false");
    SpellingIsExact(t, "0");
    SpellingIsExact(t, "no");
    assert "true"[0] != "false"[0] && "yes"[0] != "no"[0] && "1"[0] != "0"[0];
  }

  // --- names of facts -------------------------------------------------------------------

  /** A text names a fact's value: the value itself, or "fall" for autumn. */
  ghost predicate Names(target: C.Target, t: string, v: string) {
    && v in Choices(target)
    && (Spelled(t, v) || (target.BirthSeason? && v == "autumn" && Spelled(t, "fall")))
  }

  lemma FallIsNoSeason()
    ensures "fall" !in Choices(C.BirthSeason) && "autumn" in Choices(C.BirthSeason)
  {
    RL.ChoicesAreWords(C.BirthSeason, "autumn");
    if "fall" in Choices(C.BirthSeason) {
      RL.ChoicesAreWords(C.BirthSeason, "fall");
    }
  }

  lemma ChoiceIsNormal(target: C.Target, v: string)
    requires v in Choices(target)
    ensures v != "" && Trimmed(v) && IsLower(v)
  {
    hide Choices, RL.IsWord;
    RL.ChoicesAreWords(target, v);
    WordsAreNormal(v);
  }

  lemma WordsAreNormal(v: string)
    requires RL.IsWord(v)
    ensures v != "" && Trimmed(v) && IsLower(v)
  {
  }

  lemma EnumValueExactly(target: C.Target, t: string, v: string)
    requires target.Kind().StringKind?
    ensures EnumValue(target, t) == Ok(v) <==> Names(target, t, v)
  {
    hide Choices, Trim, Lower, Spelled, Trimmed, IsLower;
    RL.HasChoices(target);
    FallIsNoSeason();
    SpellingOfWord(t, C.BirthSeason, "fall");
    if v in Choices(target) {
      SpellingOfWord(t, target, v);
    }
  }

  lemma SpellingOfWord(t: string, target: C.Target, v: string)
    requires v in Choices(target) || v == "fall"
    ensures Lower(Trim(t)) == v <==> Spelled(t, v)
  {
    hide Choices, Trim, Lower, Spelled;
    if v in Choices(target) {
      ChoiceIsNormal(target, v);
    }
    SpellingIsExact(t, v);
  }

  /** A single name is saved as the value it names. */
  lemma NameIsSaved(target: C.Target, op: C.Operator, t: string, v: string)
    requires target.Kind().StringKind? && !op.Regex? && !op.Contains?
    ensures NormalizedText(target, op, C.JString(t)) == Ok(C.JString(v)) <==> Names(target, t, v)
  {
    hide Choices, Spelled, EnumValue, Names;
    EnumValueExactly(target, t, v);
    if Names(target, t, v) {
      NamesAreNotBlank(target, t, v);
    }
  }

  lemma NamesAreNotBlank(target: C.Target, t: string, v: string)
    requires Names(target, t, v)
    ensures Trim(t) != ""
  {
    hide Choices, Trim, Lower, Spelled, Trimmed, IsLower;
    ChoiceIsNormal(target, v);
    SpellingOfWord(t, target, v);
    SpellingOfWord(t, C.BirthSeason, "fall");
    assert |Lower(Trim(t))| == |Trim(t)|;
  }

  /** A fragment is saved in lower case, without the white space around it. */
  lemma FragmentIsSaved(target: C.Target, t: string, v: string)
    requires target.Kind().StringKind?
    ensures NormalizedText(target, C.Contains, C.JString(t)) == Ok(C.JString(v))
       <==> v != "" && Trimmed(v) && IsLower(v) && Spelled(t, v)
  {
    hide Trim, Lower, Spelled, Trimmed, IsLower;
    RL.LoweredTrimIsNormal(t);
    if v != "" && Trimmed(v) && IsLower(v) {
      SpellingIsExact(t, v);
    }
  }

  /** A pattern is saved exactly as typed. */
  lemma PatternIsSaved(target: C.Target, t: string)
    ensures NormalizedText(target, C.Regex, C.JString(t))
         == if AllSpace(t) then Err(ValueRequired) else Ok(C.JString(t))
  {
    hide Trim;
    TrimOfSpace(t);
  }

  // --- lists of names -------------------------------------------------------------------

  ghost predicate ItemNames(target: C.Target, v: C.Json, name: string) {
    v.JString? && Names(target, v.s, name)
  }

  lemma TextItemExactly(target: C.Target, v: C.Json, name: string)
    requires target.Kind().StringKind?
    ensures TextItem(target, v) == Ok(C.JString(name)) <==> ItemNames(target, v, name)
  {
    hide EnumValue, Names;
    if v.JString? {
      EnumValueExactly(target, v.s, name);
    }
  }

  ghost predicate IsName(target: C.Target, v: C.Json) {
    exists name :: ItemNames(target, v, name)
  }

  /** The items accepted are those that name a value, and each is saved as the value it names. */
  lemma AcceptedItemNames(target: C.Target, v: C.Json)
    requires target.Kind().StringKind?
    ensures TextItem(target, v).Ok? <==> IsName(target, v)
    ensures TextItem(target, v).Ok? ==> TextItem(target, v).value.JString? && ItemNames(target, v, TextItem(target, v).value.s)
  {
    hide EnumValue, Names;
    if TextItem(target, v).Ok? {
      TextItemExactly(target, v, TextItem(target, v).value.s);
    }
    if name :| ItemNames(target, v, name) {
      TextItemExactly(target, v, name);
    }
  }

  /** `out` holds each item's value once, in the order in which the values first occur. */
  ghost predicate NamedInOrder(target: C.Target, items: seq<C.Json>, out: seq<C.Json>) {
    && RL.Distinct(out)
    && AllNamed(target, items, out)
    && forall k :: 0 <= k < |out| ==> FirstNamed(target, items, out, k)
  }

  /** Some item has the value `out[k]`, and all items before it have values before `out[k]`. */
  ghost predicate FirstNamed(target: C.Target, items: seq<C.Json>, out: seq<C.Json>, k: nat)
    requires k < |out|
  {
    exists i :: 0 <= i < |items| && TextItem(target, items[i]) == Ok(out[k])
      && forall j :: 0 <= j < i ==> TextItem(target, items[j]).Ok? && TextItem(target, items[j]).value in out[..k]
  }

  lemma FirstNamedStays(target: C.Target, items: seq<C.Json>, out: seq<C.Json>, n: nat, m: nat, k: nat)
    requires n <= |items| && k < m <= |out| && FirstNamed(target, items[..n], out[..m], k)
    ensures FirstNamed(target, items, out, k)
  {
    hide TextItem;
    var before, shorter := items[..n], out[..m];
    var i :| 0 <= i < n && TextItem(target, before[i]) == Ok(shorter[k])
      && forall j :: 0 <= j < i ==> TextItem(target, before[j]).Ok? && TextItem(target, before[j]).value in shorter[..k];
    assert shorter[..k] == out[..k];
    assert items[i] == before[i] && forall j :: 0 <= j < i ==> items[j] == before[j];
  }

  /** Every item has an accepted value, and `out` holds it. */
  ghost predicate AllNamed(target: C.Target, items: seq<C.Json>, out: seq<C.Json>) {
    forall i :: 0 <= i < |items| ==> TextItem(target, items[i]).Ok? && TextItem(target, items[i]).value in out
  }

  lemma OneMoreValue(target: C.Target, items: seq<C.Json>, shorter: seq<C.Json>, out: seq<C.Json>)
    requires items != [] && AllNamed(target, items[..|items| - 1], shorter) && shorter <= out
    requires TextItem(target, items[|items| - 1]).Ok? && TextItem(target, items[|items| - 1]).value in out
    ensures AllNamed(target, items, out)
  {
    hide TextItem;
    var n := |items| - 1;
    forall i | 0 <= i < |items|
      ensures TextItem(target, items[i]).Ok? && TextItem(target, items[i]).value in out
    {
      if i < n {
        assert items[..n][i] == items[i];
        assert TextItem(target, items[i]).value in out[..|shorter|];
      }
    }
  }

  lemma OneMoreDistinct(shorter: seq<C.Json>, v: C.Json)
    requires RL.Distinct(shorter) && v !in shorter
    ensures RL.Distinct(shorter + [v])
  {
  }

  /** One more item: its value is kept if it is new. */
  lemma OneMoreNamed(target: C.Target, items: seq<C.Json>, shorter: seq<C.Json>, v: C.Json)
    requires items != [] && NamedInOrder(target, items[..|items| - 1], shorter)
    requires TextItem(target, items[|items| - 1]) == Ok(v)
    ensures NamedInOrder(target, items, if v in shorter then shorter else shorter + [v])
  {
    hide TextItem, FirstNamed, RL.Distinct, AllNamed;
    var n, m := |items| - 1, |shorter|;
    var out := if v in shorter then shorter else shorter + [v];
    assert out[..m] == shorter;
    OneMoreValue(target, items, shorter, out);
    if v !in shorter {
      OneMoreDistinct(shorter, v);
    }
    forall k | 0 <= k < |out|
      ensures FirstNamed(target, items, out, k)
    {
      if k < m {
        FirstNamedStays(target, items, out, n, m, k);
      } else {
        NewlyNamed(target, items, out);
      }
    }
  }

  lemma NewlyNamed(target: C.Target, items: seq<C.Json>, out: seq<C.Json>)
    requires items != [] && out != [] && TextItem(target, items[|items| - 1]) == Ok(out[|out| - 1])
    requires AllNamed(target, items[..|items| - 1], out[..|out| - 1])
    ensures FirstNamed(target, items, out, |out| - 1)
  {
    hide TextItem;
    var n := |items| - 1;
    assert forall j :: 0 <= j < n ==> items[..n][j] == items[j];
  }

  lemma {:induction false} NamesOneByOne(target: C.Target, items: seq<C.Json>)
    ensures NormalizedTexts(target, items).Ok? <==> forall i :: 0 <= i < |items| ==> TextItem(target, items[i]).Ok?
    ensures NormalizedTexts(target, items).Ok? ==> NamedInOrder(target, items, NormalizedTexts(target, items).value)
  {
    hide TextItem, NamedInOrder;
    if items == [] {
      NothingNamed(target);
    } else {
      var n := |items| - 1;
      NamesOneByOne(target, items[..n]);
      if NormalizedTexts(target, items).Ok? {
        OneMoreNamed(target, items, NormalizedTexts(target, items[..n]).value, TextItem(target, items[n]).value);
      }
    }
  }

  lemma NothingNamed(target: C.Target)
    ensures NamedInOrder(target, [], [])
  {
  }

  /** A list of names is accepted if each item is one; the values are kept once each, in their first order. */
  lemma NameListIsSaved(target: C.Target, items: seq<C.Json>)
    requires target.Kind().StringKind?
    ensures NormalizedTexts(target, items).Ok?
       <==> forall i :: 0 <= i < |items| ==> IsName(target, items[i])
    ensures NormalizedTexts(target, items).Ok? ==> NamedInOrder(target, items, NormalizedTexts(target, items).value)
  {
    hide TextItem, IsName, NamedInOrder;
    NamesOneByOne(target, items);
    forall i | 0 <= i < |items|
      ensures TextItem(target, items[i]).Ok? <==> IsName(target, items[i])
    {
      AcceptedItemNames(target, items[i]);
    }
  }

  lemma {:induction false} DropBlanksAppend(a: seq<C.Json>, b: seq<C.Json>)
    ensures DropBlanks(a + b) == DropBlanks(a) + DropBlanks(b)
  {
    hide IsBlank;
    if a == [] {
      assert a + b == b;
    } else {
      assert (a + b)[1..] == a[1..] + b;
      DropBlanksAppend(a[1..], b);
    }
  }

  lemma DropOne(v: C.Json)
    ensures DropBlanks([v]) == if v.JNull? || (v.JString? && AllSpace(v.s)) then [] else [v]
  {
    hide Trim;
    assert [v][1..] == [];
    if v.JString? {
      TrimOfSpace(v.s);
    }
  }

  /** Nulls and blank texts in an array of names are passed over, wherever they stand; nothing else is. */
  lemma BlankNamesArePassedOver(target: C.Target, a: seq<C.Json>, v: C.Json, b: seq<C.Json>)
    ensures TextItems(C.JArray(a + [v] + b))
         == TextItems(C.JArray(a)) + (if v.JNull? || (v.JString? && AllSpace(v.s)) then [] else [v]) + TextItems(C.JArray(b))
  {
    DropOne(v);
    DropBlanksAppend(a + [v], b);
    DropBlanksAppend(a, [v]);
  }

  function JsonTexts(texts: seq<string>): (vs: seq<C.Json>)
    ensures |vs| == |texts| && forall i :: 0 <= i < |texts| ==> vs[i] == C.JString(texts[i])
  {
    seq(|texts|, i requires 0 <= i < |texts| => C.JString(texts[i]))
  }

  lemma {:induction false} SameItemsSameTexts(target: C.Target, a: seq<C.Json>, b: seq<C.Json>)
    requires |a| == |b| && forall i :: 0 <= i < |a| ==> TextItem(target, a[i]) == TextItem(target, b[i])
    ensures NormalizedTexts(target, a) == NormalizedTexts(target, b)
  {
    hide TextItem;
    if a != [] {
      var n := |a| - 1;
      assert forall i :: 0 <= i < n ==> a[..n][i] == a[i] && b[..n][i] == b[i];
      SameItemsSameTexts(target, a[..n], b[..n]);
    }
  }

  lemma TrimmingChangesNoItem(target: C.Target, t: string)
    ensures TextItem(target, C.JString(Trim(t))) == TextItem(target, C.JString(t))
  {
    hide Trim;
    TrimKeepsTrimmed(Trim(t));
  }

  /** Names written one after another, with commas between them, are saved like an array of them. */
  lemma CommaNamesAreSaved(target: C.Target, texts: seq<string>)
    requires texts != [] && forall t <- texts :: ',' !in t && !AllSpace(t)
    ensures NormalizedTextList(target, C.JString(JoinCommas(texts)))
         == match NormalizedTexts(target, JsonTexts(texts)) case Ok(out) => Ok(C.JArray(out)) case Err(e) => Err(e)
  {
    hide Trim, Split, JoinCommas, NonBlankFields, NormalizedTexts, TextItem;
    forall t | t in texts
      ensures Trim(t) != ""
    {
      TrimOfSpace(t);
    }
    SplitUndoesJoin(texts);
    FieldsAreTrimmed(texts);
    forall i | 0 <= i < |texts|
      ensures TextItem(target, NonBlankFields(texts)[i]) == TextItem(target, JsonTexts(texts)[i])
    {
      TrimmingChangesNoItem(target, texts[i]);
    }
    SameItemsSameTexts(target, NonBlankFields(texts), JsonTexts(texts));
  }

  // --- other values ---------------------------------------------------------------------

  /** Blank fields between commas are passed over, wherever they stand; the others are trimmed. */
  lemma {:induction false} BlankFieldsArePassedOver(a: seq<string>, t: string, b: seq<string>)
    ensures NonBlankFields(a + [t] + b)
         == NonBlankFields(a) + (if AllSpace(t) then [] else [C.JString(Trim(t))]) + NonBlankFields(b)
  {
    hide Trim, AllSpace;
    if a == [] {
      TrimOfSpace(t);
      assert [] + [t] + b == [t] + b && ([t] + b)[1..] == b;
    } else {
      assert (a + [t] + b)[1..] == a[1..] + [t] + b && (a + [t] + b)[0] == a[0];
      BlankFieldsArePassedOver(a[1..], t, b);
      var kept := if AllSpace(t) then [] else [C.JString(Trim(t))];
      var first := if Trim(a[0]) == "" then [] else [C.JString(Trim(a[0]))];
      assert first + (NonBlankFields(a[1..]) + kept + NonBlankFields(b))
          == (first + NonBlankFields(a[1..])) + kept + NonBlankFields(b);
    }
  }

  /** A list may be sent as one number, or as comma text; null is no list at all. */
  lemma ListsOfOtherKinds(target: C.Target, raw: C.Json)
    ensures raw.JInt? ==> NormalizedIntList(raw) == NormalizedIntList(C.JArray([raw]))
    ensures raw.JString? ==> NormalizedIntList(raw) == NormalizedIntList(C.JArray(NonBlankFields(Split(raw.s, ','))))
    ensures raw.JNull? ==> NormalizedIntList(raw) == Err(NumberMissing) && NormalizedTextList(target, raw) == Err(NoValuePicked)
    ensures raw.JBool? || raw.JObject? ==> NormalizedIntList(raw) == Err(WholeNumbersRequired)
    ensures raw.JBool? || raw.JObject? || raw.JInt? ==> NormalizedTextList(target, raw) == Err(TextsRequired)
  {
    hide Trim, ParseI64, Split;
    OneRefused(target, raw);
  }

  lemma OneRefused(target: C.Target, v: C.Json)
    ensures WholeNumber(v).None? ==> NormalizedInts([v]) == Err(WholeNumbersRequired)
    ensures !v.JString? ==> NormalizedTexts(target, [v]) == Err(TextsRequired)
  {
    hide WholeNumber;
    assert [v][..0] == [];
    assert NormalizedInts([]) == Ok([]) && NormalizedTexts(target, []) == Ok([]);
  }

  /** A number given for a text is taken as it is written. */
  lemma NumberAsText(target: C.Target, op: C.Operator, n: C.JsonInt)
    ensures NormalizedText(target, op, C.JInt(n)) == NormalizedText(target, op, C.JString(PrintInt(n)))
  {
    hide Trim, Lower, EnumValue, PrintInt;
  }

  lemma TruthAsText(target: C.Target, op: C.Operator, b: bool)
    ensures NormalizedText(target, op, C.JBool(b)) == NormalizedText(target, op, C.JString(if b then "true" else "false"))
  {
    hide Trim, Lower, EnumValue;
  }

  lemma NothingAsText(target: C.Target, op: C.Operator, raw: C.Json)
    requires raw.JNull? || raw.JArray? || raw.JObject?
    ensures NormalizedText(target, op, raw) == Err(ValueRequired)
  {
    hide Trim, Lower, EnumValue, PrintInt;
    NothingTrims();
  }

  lemma NothingTrims()
    ensures Trim("") == ""
  {
  }

  /** What a number box and a yes-or-no box refuse, and why. */
  lemma OtherValuesAreRefused(raw: C.Json)
    ensures NormalizedInt(raw) == Err(NumberMissing) <==> raw.JNull? || (raw.JString? && AllSpace(raw.s))
    ensures NormalizedInt(raw) == Err(NumberRequired)
       <==> || raw.JBool? || raw.JArray? || raw.JObject?
            || (raw.JString? && !AllSpace(raw.s) && forall n :: !NumberText(raw.s, n))
    ensures NormalizedBool(raw) == Err(BooleanRequired) <== !raw.JBool? && !raw.JString?
    ensures raw.JBool? ==> NormalizedBool(raw) == Ok(raw)
  {
    hide Trim, ParseI64, NumberText;
    if raw.JString? {
      TrimOfSpace(raw.s);
      if WholeNumber(raw).Some? {
        NumberTextExactly(raw.s, WholeNumber(raw).value);
        NumberTextIsI64(raw.s, WholeNumber(raw).value);
      } else {
        forall n
          ensures !NumberText(raw.s, n)
        {
          NumberTextExactly(raw.s, n);
        }
      }
    }
  }
}
