/**
 * The static data of the boutique page (constants.ts): the two-language
 * label table, the material and name tables, and the generator of the
 * 60 mock catalog records.
 */
module Constants {
  import opened Wrappers
  import opened Types

  /** Number of generated records. */
  const ItemCount: nat := 60

  /** The Chinese page-counter template. */
  const ZhPageOf: string := "第 {current} 页 / 共 {total} 页"

  /** The English page-counter template. */
  const EnPageOf: string := "Page {current} of {total}"

  /** The Chinese labels. */
  const ZhLabels: Translation := Translation(
    "优质地毯精品店", "简约 · 舒适 · 自然", "材质", "¥", "联系我们",
    "邮箱", "电话", "WhatsApp 咨询", "上一页", "下一页",
    ZhPageOf)

  /** The English labels. */
  const EnLabels: Translation := Translation(
    "Premium Carpet Boutique", "Simple · Comfortable · Natural", "Material", "$", "Contact Us",
    "Email", "Phone", "WhatsApp Us", "Previous", "Next",
    EnPageOf)

  /** The label table, keyed by language. */
  const Translations: map<Language, Translation> := map[Zh := ZhLabels, En := EnLabels]

  /** The five materials, cycled through by the generator. */
  const Materials: seq<Localized> := [
    Localized("纯棉", "Pure Cotton"),
    Localized("羊毛", "Wool"),
    Localized("黄麻", "Jute"),
    Localized("混纺", "Blended Fiber"),
    Localized("亚麻", "Linen")
  ]

  /** The six name bases, cycled through by the generator. */
  const CarpetNames: seq<Localized> := [
    Localized("北欧简约长毛地毯", "Nordic Minimalist Shaggy Rug"),
    Localized("日式和风编织毯", "Japanese Woven Tatami Mat"),
    Localized("复古几何艺术毯", "Vintage Geometric Art Rug"),
    Localized("云感静音卧室毯", "Cloud-feel Silent Bedroom Rug"),
    Localized("天然黄麻耐磨地垫", "Natural Jute Durable Mat"),
    Localized("手工羊毛奢华地毯", "Handmade Wool Luxury Rug")
  ]

  /** `t` occurs in `s` as a contiguous run. */
  predicate Contains(s: string, t: string)
  {
    exists k :: 0 <= k <= |s| && t <= s[k..]
  }

  /** A page-counter template carries both the `{current}` and the `{total}` placeholder. */
  predicate IsPageTemplate(s: string)
  {
    Contains(s, "{current}") && Contains(s, "{total}")
  }

  /** The Chinese page-counter template has both placeholders. */
  lemma ZhPageTemplate()
    ensures IsPageTemplate(ZhLabels.pageOf)
  {
    var zh := ZhPageOf;
    assert "{current}" <= zh[2..];
    assert "{total}" <= zh[18..];
  }

  /** The English page-counter template has both placeholders. */
  lemma EnPageTemplate()
    ensures IsPageTemplate(EnLabels.pageOf)
  {
    var en := EnPageOf;
    assert "{current}" <= en[5..];
    assert "{total}" <= en[18..];
  }

  /**
   * Both languages have a label record, and each page-counter template
   * carries the `{current}` and `{total}` placeholders.
   */
  lemma TranslationsComplete()
    ensures Translations.Keys == {Zh, En}
    ensures forall lang :: lang in Translations && IsPageTemplate(Translations[lang].pageOf)
  {
    forall lang ensures lang in Translations && IsPageTemplate(Translations[lang].pageOf) {
      match lang
      case Zh => ZhPageTemplate();
      case En => EnPageTemplate();
    }
  }

  /**
   * The record generated for index `i` (0-based): id i+1, name base
   * `i mod 6` with series number `i div 6 + 1`, material `i mod 5`,
   * price 199 + 15i, picture seed i+123 and no tag fields.
   */
  function Carpet(i: int): (c: Carpet)
    requires 0 <= i < ItemCount
    ensures 1 <= c.id <= ItemCount
    ensures 199 <= c.price <= 1084
    ensures 1 <= c.name.number <= 10
    ensures c.name.base in CarpetNames && c.material in Materials
    ensures c.category == None && c.scenario == None && c.materialKey == None
  {
    Types.Carpet(
      i + 1,
      NumberedName(CarpetNames[i % |CarpetNames|], i / 6 + 1),
      Materials[i % |Materials|],
      199 + i * 15,
      i + 123,
      None, None, None)
  }

  /** The generated catalog, in generation order. */
  function MockCarpets(): (s: seq<Carpet>)
    ensures |s| == ItemCount
  {
    seq(ItemCount, i requires 0 <= i < ItemCount => Carpet(i))
  }

  /** The catalog has 60 records, record i is the one generated for index i, and none carries a tag field. */
  lemma CatalogShape()
    ensures |MockCarpets()| == 60
    ensures forall i :: 0 <= i < |MockCarpets()| ==> MockCarpets()[i] == Carpet(i)
    ensures forall c :: c in MockCarpets() ==> c.category.None? && c.scenario.None? && c.materialKey.None?
  {
  }

  /** The ids carried by a list of records. */
  function Ids(s: seq<Carpet>): (ids: set<int>)
  {
    set c | c in s :: c.id
  }

  /** The ids are exactly 1..60, in strictly ascending order. */
  lemma IdsAreOneToSixty()
    ensures forall i :: 0 <= i < |MockCarpets()| ==> MockCarpets()[i].id == i + 1
    ensures forall i, j :: 0 <= i < j < |MockCarpets()| ==> MockCarpets()[i].id < MockCarpets()[j].id
    ensures forall k :: k in Ids(MockCarpets()) <==> 1 <= k <= 60
  {
    var ids := Ids(MockCarpets());
    forall k | 1 <= k <= 60 ensures k in ids {
      assert MockCarpets()[k - 1].id == k;
    }
  }

  /** Distinct positions hold distinct records (they differ in id). */
  lemma RecordsDistinct()
    ensures forall i, j :: 0 <= i < j < |MockCarpets()| ==> MockCarpets()[i] != MockCarpets()[j]
  {
  }

  /** Prices run from 199 to 1084 and rise by exactly 15 from one record to the next. */
  lemma PricesStepByFifteen()
    ensures MockCarpets()[0].price == 199 && MockCarpets()[59].price == 1084
    ensures forall i :: 0 <= i < |MockCarpets()| ==> 199 <= MockCarpets()[i].price <= 1084
    ensures forall i :: 0 <= i < |MockCarpets()| - 1 ==> MockCarpets()[i + 1].price == MockCarpets()[i].price + 15
  {
  }

  /** Record i has material `Materials[i mod 5]`, so the materials repeat with period 5. */
  lemma MaterialsRepeatEveryFive()
    ensures forall i :: 0 <= i < |MockCarpets()| ==> MockCarpets()[i].material == Materials[i % 5]
    ensures forall i :: 0 <= i < |MockCarpets()| - 5 ==> MockCarpets()[i + 5].material == MockCarpets()[i].material
  {
    forall i | 0 <= i < |MockCarpets()| - 5
      ensures MockCarpets()[i + 5].material == MockCarpets()[i].material
    {
      assert (i + 5) % 5 == i % 5;
    }
  }

  /**
   * Record i is named after `CarpetNames[i mod 6]` with series number
   * `i div 6 + 1` in 1..10; the Chinese and English names share that base
   * and number.
   */
  lemma NameBaseAndSeries()
    ensures forall i :: 0 <= i < |MockCarpets()| ==>
      MockCarpets()[i].name.base == CarpetNames[i % 6] && MockCarpets()[i].name.number == i / 6 + 1
    ensures forall i :: 0 <= i < |MockCarpets()| ==> 1 <= MockCarpets()[i].name.number <= 10
  {
  }

  /** The six name bases are pairwise different in each language. */
  lemma CarpetNamesDistinct()
    ensures forall a, b, lang :: 0 <= a < b < |CarpetNames| ==> CarpetNames[a].In(lang) != CarpetNames[b].In(lang)
  {
  }

  /** The displayed name of a record in one language: its base label and series number. */
  function DisplayName(c: Carpet, lang: Language): (name: (string, int))
  {
    (c.name.base.In(lang), c.name.number)
  }

  /** No two records share a name, in either language. */
  lemma NamesDistinct(lang: Language)
    ensures forall i, j :: 0 <= i < j < |MockCarpets()| ==>
      DisplayName(MockCarpets()[i], lang) != DisplayName(MockCarpets()[j], lang)
  {
  }
}
