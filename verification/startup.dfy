/** The `Startup` record persisted for every researched company. */
module StartupModel {
  import opened Wrappers
  import opened Text
  import opened Dicts

  /** `founded_year` holds an integer or a string (such as "N/A"). */
  datatype FoundedYear = YearNumber(year: int) | YearText(text: string)

  /** A funding amount: a number or a free-text figure such as "$10M". */
  datatype Amount = AmountNumber(amount: int) | AmountText(text: string)

  /** A news entry: a string-to-string dictionary. */
  type NewsItem = Dict<string, string>

  /** Every field except `name` is optional. `last_updated` is not modelled. */
  datatype Startup = Startup(
    id: Option<string>,
    name: string,
    website: Option<string>,
    description: Option<string>,
    foundedYear: Option<FoundedYear>,
    headquarters: Option<string>,
    industry: Option<seq<string>>,
    funding: Option<Dict<string, Amount>>,
    founders: Option<seq<string>>,
    employeesCount: Option<int>,
    products: Option<seq<string>>,
    socialMedia: Option<Dict<string, string>>,
    news: Option<seq<NewsItem>>)
  {
    /** No field other than `name` is present. */
    predicate OnlyNamed() {
      && id.None? && website.None? && description.None? && foundedYear.None?
      && headquarters.None? && industry.None? && funding.None? && founders.None?
      && employeesCount.None? && products.None? && socialMedia.None? && news.None?
    }
  }

  /** `Startup(name=n)`: the record built from the one required field. */
  function NamedOnly(name: string): (r: Startup)
    ensures r.name == name && r.OnlyNamed()
  {
    Startup(None, name, None, None, None, None, None, None, None, None, None, None, None)
  }

  /** The record identifier derived from a name: lower-cased, every space
      turned into a hyphen. */
  function Slug(name: string): (r: string)
    ensures |r| == |name|
    ensures ' ' !in r
    ensures forall i :: 0 <= i < |name| ==> r[i] == (if name[i] == ' ' then '-' else LowerChar(name[i]))
  {
    Replace(Lower(name), ' ', '-')
  }

  /** Names that differ only in ASCII letter case share one identifier. */
  lemma SlugIgnoresCase(a: string, b: string)
    requires Lower(a) == Lower(b)
    ensures Slug(a) == Slug(b)
  {
  }

  /** A slug is its own slug. */
  lemma SlugIdempotent(name: string)
    ensures Slug(Slug(name)) == Slug(name)
  {
  }

  /** Distinct names can share an identifier, so saving one record replaces
      the other. */
  lemma SlugCollision()
    ensures Slug("Acme Robotics") == Slug("acme-robotics") == "acme-robotics"
  {
  }
}
