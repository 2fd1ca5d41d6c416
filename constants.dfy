/** The page's static data and the tag-colour lookup (constants.tsx).

    The tables keep the fields the page keys its lists by or looks up (ids,
    navigation names and targets, skill names, project tags, which are
    coloured by `GetTagStyle`) and the short text beside them (skill
    descriptions, category and project titles). Icons, images, links, metrics
    and the long project write-ups are dropped. */
module Constants {

  // ---------------------------------------------------------------------------
  // Tag styles

  /** Every keyed tag is drawn in one Tailwind colour: a light tint with
      dark text, and a translucent tint with light text in dark mode. The
      colour name starts right after "bg-". */
  function Tinted(colour: string): (style: string)
    ensures |style| == 79 + 6 * |colour|
    ensures |colour| > 1 ==> style[3] == colour[0] && style[4] == colour[1]
    ensures style[3 + |colour|] == '-'
  {
    "bg-" + colour + "-50 text-" + colour + "-700 border-" + colour + "-200 dark:bg-" + colour
      + "-500/10 dark:text-" + colour + "-300 dark:border-" + colour + "-500/20"
  }

  /** The lookup table, keyed by the exact tag text. Each entry is the style
      `Tinted` draws in the colour given here. */
  function TagColours(): (colours: map<string, string>)
    ensures forall tag | tag in colours :: |colours[tag]| > 1
  {
    map[
      "Python" := "blue",
      "SQL" := "indigo",
      "DAX" := "sky",
      "XGBoost" := "fuchsia",
      "Scikit-learn" := "purple",
      "K-Means" := "violet",
      "Power BI" := "amber",
      "Pandas" := "cyan",
      "Data Viz" := "teal"
    ]
  }

  /** The neutral style for every tag without one of its own: slate, with
      darker text and an opaque dark-mode background. No tinted style is
      equal to it, whatever the colour. */
  function FallbackStyle(): (style: string)
    ensures forall colour :: style != Tinted(colour)
  {
    var slate := "slate";
    var style := "bg-" + slate + "-50 text-" + slate + "-600 border-" + slate + "-200 dark:bg-" + slate
      + "-800 dark:text-" + slate + "-300 dark:border-" + slate + "-700";
    assert |style| == 103 && style[7] == 'e';
    style
  }

  /** `getTagStyle`: the table entry, or the neutral style when the entry is
      missing (or, as `||` would have it, empty). No entry is empty, so a
      keyed tag always gets its own style, and the neutral style comes back
      exactly for the tags the table does not have. */
  function GetTagStyle(tag: string): (style: string)
    ensures tag in TagColours() ==> style == Tinted(TagColours()[tag])
    ensures style == FallbackStyle() <==> tag !in TagColours()
  {
    if tag in TagColours() && Tinted(TagColours()[tag]) != "" then Tinted(TagColours()[tag]) else FallbackStyle()
  }

  /** A tag has a style of its own. */
  predicate HasDedicatedStyle(tag: string)
  {
    GetTagStyle(tag) != FallbackStyle()
  }

  /** No two keyed tags share a colour, and no two of the colours start with
      the same two letters, so no two keyed tags look alike. */
  lemma StylesDistinct()
    ensures forall t, u | t in TagColours() && u in TagColours() && t != u ::
      TagColours()[t] != TagColours()[u] && GetTagStyle(t) != GetTagStyle(u)
  {
    forall t, u | t in TagColours() && u in TagColours() && t != u
      ensures TagColours()[t] != TagColours()[u] && GetTagStyle(t) != GetTagStyle(u)
    {
      var a, b := TagColours()[t], TagColours()[u];
      assert (a[0], a[1]) != (b[0], b[1]);
      assert (Tinted(a)[3], Tinted(a)[4]) != (Tinted(b)[3], Tinted(b)[4]);
    }
  }

  /** Matching is exact: the skill list spells "Scikit-Learn", which is not a
      key and gets the neutral style, while the tag "Scikit-learn" gets purple. */
  lemma CaseSensitive()
    ensures GetTagStyle("Scikit-Learn") == FallbackStyle()
    ensures GetTagStyle("Scikit-learn") == Tinted("purple")
    ensures SkillsData()[2].items[4].name == "Scikit-Learn"
  {
    assert "Scikit-Learn" != "Scikit-learn" by {
      assert "Scikit-Learn"[7] != "Scikit-learn"[7];
    }
  }

  // ---------------------------------------------------------------------------
  // Navigation

  datatype NavItem = NavItem(name: string, href: string)

  /** An in-page link: "#" followed by a section id. */
  predicate IsAnchor(href: string)
  {
    |href| > 1 && href[0] == '#'
  }

  /** `NAV_ITEMS`: five in-page links, each to a different section. The
      header keys its links by name, so the names are distinct too. */
  function NavItems(): (items: seq<NavItem>)
    ensures |items| == 5
    ensures forall i :: 0 <= i < |items| ==> IsAnchor(items[i].href)
    ensures forall i, j :: 0 <= i < j < |items| ==> items[i].href != items[j].href
    ensures forall i, j :: 0 <= i < j < |items| ==> items[i].name != items[j].name
  {
    [
      NavItem("Início", "#home"),
      NavItem("Sobre", "#about"),
      NavItem("Habilidades", "#skills"),
      NavItem("Projetos", "#projects"),
      NavItem("Contato", "#contact")
    ]
  }

  // ---------------------------------------------------------------------------
  // Skills

  datatype Skill = Skill(name: string, description: string)

  datatype SkillCategory = SkillCategory(id: string, title: string, items: seq<Skill>)

  /** No two categories share an id. */
  predicate UniqueCategoryIds(cats: seq<SkillCategory>)
  {
    forall i, j :: 0 <= i < j < |cats| ==> cats[i].id != cats[j].id
  }

  /** No two skills of a list share a name (the skill cards' keys). */
  predicate UniqueSkillNames(skills: seq<Skill>)
  {
    forall i, j :: 0 <= i < j < |skills| ==> skills[i].name != skills[j].name
  }

  /** `SKILLS_DATA`: the skills page opens on the first category and looks
      tabs up by id, so the list is non-empty, the ids are unique, and every
      tab has something to show, with no two cards of a tab under one name. */
  function SkillsData(): (cats: seq<SkillCategory>)
    ensures |cats| > 0
    ensures UniqueCategoryIds(cats)
    ensures forall i :: 0 <= i < |cats| ==> |cats[i].items| > 0
    ensures forall i :: 0 <= i < |cats| ==> UniqueSkillNames(cats[i].items)
  {
    [
      SkillCategory("langs", "Linguagens & Dados", [
        Skill("Python", "Data Science & Automação"),
        Skill("SQL", "Queries & Modelagem"),
        Skill("R", "Estatística Avançada"),
        Skill("PostgreSQL", "Banco de Dados Relacional")
      ]),
      SkillCategory("viz", "Visualização", [
        Skill("Power BI", "Dashboards Interativos"),
        Skill("Matplotlib", "Plotagem Científica"),
        Skill("Figma", "UI Design & Prototipagem")
      ]),
      SkillCategory("ml", "IA & Machine Learning", [
        Skill("TensorFlow", "Deep Learning"),
        Skill("PyTorch", "Neural Networks"),
        Skill("Pandas", "Manipulação de Dados"),
        Skill("Numpy", "Computação Numérica"),
        Skill("Scikit-Learn", "Modelos Preditivos")
      ]),
      SkillCategory("eng", "DevOps & Tools", [
        Skill("Git", "Versionamento"),
        Skill("GitHub", "CI/CD & Colaboração"),
        Skill("Docker", "Containerização"),
        Skill("VS Code", "IDE Principal")
      ])
    ]
  }

  // ---------------------------------------------------------------------------
  // Projects

  /** The categories a project may have. */
  datatype Category = MachineLearning | Visualization | Analysis | Engineering

  datatype Project = Project(id: int, title: string, category: Category, tags: seq<string>)

  /** No two projects share an id (the project list's keys). */
  predicate UniqueProjectIds(ps: seq<Project>)
  {
    forall i, j :: 0 <= i < j < |ps| ==> ps[i].id != ps[j].id
  }

  /** No tag appears twice on one project (the tag badges' keys). */
  predicate UniqueTags(tags: seq<string>)
  {
    forall j, k :: 0 <= j < k < |tags| ==> tags[j] != tags[k]
  }

  /** `PROJECTS_DATA`: ids unique, every tag shown on a card has a colour of
      its own, and no card shows a tag twice. */
  function ProjectsData(): (ps: seq<Project>)
    ensures |ps| == 3
    ensures UniqueProjectIds(ps)
    ensures forall i, k :: 0 <= i < |ps| && 0 <= k < |ps[i].tags| ==> HasDedicatedStyle(ps[i].tags[k])
    ensures forall i :: 0 <= i < |ps| ==> UniqueTags(ps[i].tags)
  {
    var sales: seq<string> := ["Python", "XGBoost", "Pandas"];
    var finance: seq<string> := ["Power BI", "DAX", "SQL"];
    var clients: seq<string> := ["Python", "K-Means", "Scikit-learn"];
    assert UniqueTags(sales) by { assert sales[0][1] != sales[2][1]; }
    assert UniqueTags(finance);
    assert UniqueTags(clients);
    [
      Project(1, "Previsão de Vendas com XGBoost", MachineLearning, sales),
      Project(2, "Dashboard Executivo Financeiro", Visualization, finance),
      Project(3, "Segmentação de Clientes (RFM)", Analysis, clients)
    ]
  }
}
