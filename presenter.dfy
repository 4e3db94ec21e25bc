/**
 * The pure pieces of the result presenter: the template shortcuts, the per-result
 * view map (`activeTab`) and the name of a downloaded file.
 */
module Presenter {
  import opened JsStrings

  /**
   * The prompt each template shortcut fills in. Each description is written as its
   * first letter followed by the rest, so that `KnownTemplateNotBlank` can use that
   * first letter.
   */
  const Templates: map<string, string> := map[
    "Dashboard" := "A" + " modern analytics dashboard with charts, metrics cards, and data tables",
    "SignUp Form" := "A" + " clean sign up form with email, password fields and social login options",
    "Hero" := "A" + " hero section with bold headline, subheading, CTA button and background image",
    "User Profile Card" := "A" + " user profile card with avatar, name, bio, and social media links"
  ]

  /** `templates[template] || template` */
  function TemplateFor(template: string): (prompt: string)
    ensures template in Templates ==> prompt == Templates[template]
    ensures template !in Templates ==> prompt == template
  {
    if template in Templates && Templates[template] != "" then Templates[template] else template
  }

  /** A known shortcut always yields a prompt that passes the blank-prompt guard. */
  lemma KnownTemplateNotBlank(template: string)
    requires template in Templates
    ensures Trim(TemplateFor(template)) != []
  {
    var p := TemplateFor(template);
    assert p[0] == 'A';
    TrimEmptyIffBlank(p);
  }

  /** Clicking a shortcut twice fills in the same prompt as clicking it once. */
  lemma TemplateForIdempotent(template: string)
    ensures TemplateFor(TemplateFor(template)) == TemplateFor(template)
  {
    if template in Templates {
      assert TemplateFor(template) !in Templates;
    }
  }

  /** The two views of a result card. */
  datatype Tab = Preview | Code

  /** `activeTab[id] || "preview"`: a result without an entry shows its preview. */
  function TabOf(activeTab: map<string, Tab>, id: string): (t: Tab)
    ensures id !in activeTab ==> t == Preview
    ensures t == Code <==> id in activeTab && activeTab[id] == Code
  {
    if id in activeTab then activeTab[id] else Preview
  }

  /** `{ ...activeTab, [id]: tab }` */
  function WithTab(activeTab: map<string, Tab>, id: string, tab: Tab): (r: map<string, Tab>)
    ensures TabOf(r, id) == tab
    ensures r.Keys == activeTab.Keys + {id}
    ensures forall k :: k in activeTab && k != id ==> r[k] == activeTab[k]
    ensures forall k :: k != id ==> TabOf(r, k) == TabOf(activeTab, k)
  {
    activeTab[id := tab]
  }

  /** Selecting the same view twice leaves the same map as selecting it once. */
  lemma WithTabIdempotent(activeTab: map<string, Tab>, id: string, tab: Tab)
    ensures WithTab(WithTab(activeTab, id, tab), id, tab) == WithTab(activeTab, id, tab)
  {
  }

  /**
   * Switching a card from preview to code and back shows every card as before; an
   * untouched card (no entry yet) now has an explicit `Preview` entry.
   */
  lemma ToggleRoundTrip(activeTab: map<string, Tab>, id: string)
    requires TabOf(activeTab, id) == Preview
    ensures forall k :: TabOf(WithTab(WithTab(activeTab, id, Code), id, Preview), k) == TabOf(activeTab, k)
  {
  }

  /** The file a download produces. */
  datatype DownloadFile = DownloadFile(name: string, content: string)

  /**
   * `component-v${index + 1}.tsx`: between the prefix and the extension stands the
   * decimal text, without leading zero, of the card's 1-based position.
   */
  function DownloadName(index: nat): (name: string)
    ensures |name| > |"component-v"| + |".tsx"|
    ensures name[..|"component-v"|] == "component-v"
    ensures name[|name| - |".tsx"|..] == ".tsx"
    ensures IsDigits(name[11..|name| - 4]) && DecimalValue(name[11..|name| - 4]) == index + 1
    ensures |name| == 16 || name[11] != '0'
  {
    var name := "component-v" + Decimal(index + 1) + ".tsx";
    assert name[11..|name| - 4] == Decimal(index + 1);
    DecimalRoundTrip(index + 1);
    name
  }

  /** Cards at different positions download under different names. */
  lemma DownloadNameInjective(i: nat, j: nat)
    ensures DownloadName(i) == DownloadName(j) ==> i == j
  {
    var a, b := DownloadName(i), DownloadName(j);
    if a == b {
      assert a[11..|a| - 4] == Decimal(i + 1);
      assert b[11..|b| - 4] == Decimal(j + 1);
      DecimalInjective(i + 1, j + 1);
    }
  }

  /** The first card downloads as `component-v1.tsx`. */
  lemma FirstDownloadName()
    ensures DownloadName(0) == "component-v1.tsx"
  {
  }
}
