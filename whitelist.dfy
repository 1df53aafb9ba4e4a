/**
 * The local fallback the decision servers use when the classifier fails:
 * lower-case the utterance and look, in list order, for the first
 * whitelisted recipient that occurs in it as a substring.
 */
module Whitelist {
  import opened Base
  import opened Text
  import opened ServerIo

  /** The registered recipients, lower case, in the order they are searched. */
  const Names: seq<string> := ["aisyah", "rabiathul", "nadia"]

  const DenyMessage := "Maaf, nama tidak terdaftar."

  /** Index of the first name of `names` that occurs in `text`. */
  function FirstMatch(names: seq<string>, text: string): (r: Option<nat>)
    ensures r.Some? ==> r.value < |names| && Contains(text, names[r.value])
    ensures r.Some? ==> forall j :: 0 <= j < r.value ==> !Contains(text, names[j])
    ensures r.None? <==> forall j :: 0 <= j < |names| ==> !Contains(text, names[j])
  {
    if names == [] then None
    else if Contains(text, names[0]) then Some(0)
    else match FirstMatch(names[1..], text)
      case None => None
      case Some(k) => Some(k + 1)
  }

  /** A name that occurs, with none listed before it occurring, is the first match. */
  lemma FirstMatchAt(names: seq<string>, text: string, i: nat)
    requires i < |names| && Contains(text, names[i])
    requires forall j :: 0 <= j < i ==> !Contains(text, names[j])
    ensures FirstMatch(names, text) == Some(i)
  {
  }

  /** The fallback answer of python/app.py and Final/main.py (no spoken text). */
  function PlainFallback(text: string): Decision {
    match FirstMatch(Names, Lower(text))
    case Some(k) => map["action" := "open", "name" := Capitalize(Names[k])]
    case None => map["action" := "deny", "message" := DenyMessage]
  }

  /**
   * `extract_name_with_gemini` of python/app.py and Final/main.py: the
   * classifier's object is returned as it is, with no whitelist re-check;
   * on any failure the local fallback answers.
   */
  function ClassifyOrFallback(text: string, reply: ClassifierReply): (d: Decision)
    ensures reply.Success? ==> d == reply.fields
    ensures reply.Failure? ==> d == PlainFallback(text)
  {
    match reply
    case Success(fields) => fields
    case Failure => PlainFallback(text)
  }

  /** The capitalised form of every registered name, e.g. "Aisyah". */
  lemma CapitalizedNames()
    ensures Capitalize(Names[0]) == "Aisyah"
    ensures Capitalize(Names[1]) == "Rabiathul"
    ensures Capitalize(Names[2]) == "Nadia"
  {
    LowerOfLower(Names[1][1..]);
  }

  /** Every registered name is lower case, so lower-casing its capitalised form gives it back. */
  lemma NameRoundTrip(k: nat)
    requires k < |Names|
    ensures Lower(Capitalize(Names[k])) == Names[k]
  {
    var name := Names[k];
    if k == 0 {
      assert IsLower("aisyah");
    } else if k == 1 {
      assert IsLower("rabiathul");
    } else {
      assert IsLower("nadia");
    }
    LowerCapitalize(name);
  }

  /**
   * The fallback opens exactly when some registered name occurs in the
   * lower-cased text, and then for the first such name in list order.
   */
  lemma FallbackOpensFirstListed(text: string)
    ensures PlainFallback(text)["action"] == "open" <==> exists k :: 0 <= k < |Names| && Contains(Lower(text), Names[k])
    ensures forall k :: 0 <= k < |Names| && Contains(Lower(text), Names[k])
                        && (forall j :: 0 <= j < k ==> !Contains(Lower(text), Names[j]))
                        ==> PlainFallback(text) == map["action" := "open", "name" := Capitalize(Names[k])]
  {
    var r := FirstMatch(Names, Lower(text));
    forall k | 0 <= k < |Names| && Contains(Lower(text), Names[k])
               && (forall j :: 0 <= j < k ==> !Contains(Lower(text), Names[j]))
      ensures PlainFallback(text) == map["action" := "open", "name" := Capitalize(Names[k])]
    {
      assert r.Some?;
      assert Contains(Lower(text), Names[r.value]);
    }
  }

  /** A registered name found in the lower-cased text makes the fallback open, for one of the three recipients. */
  lemma OpensWhenNamed(text: string, k: nat)
    requires k < |Names| && Contains(Lower(text), Names[k])
    ensures PlainFallback(text)["action"] == "open"
    ensures PlainFallback(text)["name"] in {"Aisyah", "Rabiathul", "Nadia"}
  {
    CapitalizedNames();
    FallbackOpensFirstListed(text);
  }

  /** With no registered name in the text the fallback denies with the fixed message. */
  lemma FallbackDeniesUnknown(text: string)
    requires forall k :: 0 <= k < |Names| ==> !Contains(Lower(text), Names[k])
    ensures PlainFallback(text) == map["action" := "deny", "message" := DenyMessage]
  {
  }

  /**
   * Filler words around a registered name, in any letter case, do not stop
   * the fallback from opening: it opens for a registered name, the given one
   * unless a name listed earlier occurs as well.
   */
  lemma FillerStillMatches(pre: string, k: nat, spoken: string, post: string)
    requires k < |Names| && Lower(spoken) == Names[k]
    ensures PlainFallback(pre + spoken + post)["action"] == "open"
    ensures PlainFallback(pre + spoken + post)["name"] in {"Aisyah", "Rabiathul", "Nadia"}
    ensures (forall j :: 0 <= j < k ==> !Contains(Lower(pre + spoken + post), Names[j]))
            ==> PlainFallback(pre + spoken + post)["name"] == Capitalize(Names[k])
  {
    var text := pre + spoken + post;
    LowerAppend(pre + spoken, post);
    LowerAppend(pre, spoken);
    ContainsInfix(Lower(pre), Names[k], Lower(post));
    assert Contains(Lower(text), Names[k]);
    CapitalizedNames();
    FallbackOpensFirstListed(text);
  }

  /** Scenario: "paket untuk Aisyah" opens for Aisyah. */
  lemma FallbackScenario()
    ensures PlainFallback("paket untuk Aisyah") == map["action" := "open", "name" := "Aisyah"]
  {
    FillerStillMatches("paket untuk ", 0, "Aisyah", "");
    assert "paket untuk Aisyah" == "paket untuk " + "Aisyah" + "";
  }
}
