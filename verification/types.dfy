/**
 * The record shapes of the carpet catalog (types.ts). This module declares
 * types only; the behaviour lives in Constants and App.
 */
module Types {
  import opened Wrappers

  /** The two display languages, 'zh' and 'en'. */
  datatype Language = Zh | En

  /** A label given in both languages, as the `{ zh, en }` objects of the source. */
  datatype Localized = Localized(zh: string, en: string)
  {
    /** The label in language `lang`. */
    function In(lang: Language): string
    {
      match lang
      case Zh => zh
      case En => en
    }
  }

  /**
   * A product name. The source formats it as "<base> <n>号" in Chinese and
   * "<base> No.<n>" in English; the model keeps the base label and the
   * series number instead of the formatted text.
   */
  datatype NumberedName = NumberedName(base: Localized, number: int)

  /**
   * One catalog record. `imageSeed` stands for the picture URL, which the
   * source builds from that number. `category`, `scenario` and `materialKey`
   * are the tag fields the filter reads; the record type of the source does
   * not declare them, so on a record they are absent unless set.
   */
  datatype Carpet = Carpet(
    id: int,
    name: NumberedName,
    material: Localized,
    price: int,
    imageSeed: int,
    category: Option<string>,
    scenario: Option<string>,
    materialKey: Option<string>)

  /** The fixed set of display labels, one record per language. */
  datatype Translation = Translation(
    title: string,
    subtitle: string,
    materialLabel: string,
    priceCurrency: string,
    contactTitle: string,
    email: string,
    phone: string,
    whatsapp: string,
    prevPage: string,
    nextPage: string,
    pageOf: string)

}
