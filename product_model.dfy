/** The values the product import works on: CSV lines and their bound entries,
    product types with their attribute definitions, and the drafts sent to the
    commercetools platform. */
module ProductModel {
  import opened Wrappers

  /** The attribute types of a product type's attribute definitions. */
  datatype AttributeType =
    | BooleanType
    | StringType
    | LocalizedStringType
    | EnumType
    | LocalizedEnumType
    | NumberType
    | MoneyType
    | DateType
    | TimeType
    | DateTimeType
    | ReferenceType
    | NestedType
    | SetType(elementType: AttributeType)

  datatype AttributeDefinition = AttributeDefinition(name: string, attributeType: AttributeType)

  /** A product type as the platform holds it: its id and its attributes, in order. */
  datatype ProductType = ProductType(id: string, name: string, attributes: seq<AttributeDefinition>)

  /** One CSV line (a Spring Batch `FieldSet`): the column names in header order and
      the line's values by column name. */
  datatype Line = Line(names: seq<string>, properties: map<string, string>)

  /** A line bound to a `ProductCsvEntry`: the product type named by the line, the
      localized name and slug (locale to text), and the variant's raw columns. */
  datatype CsvEntry = CsvEntry(
    productType: string,
    name: map<string, string>,
    slug: map<string, string>,
    sku: Option<string>,
    prices: Option<string>,
    images: Option<string>)

  /** A line that could not be bound to a `ProductCsvEntry` (a `BindException`). */
  datatype BindFailure = BindFailure

  datatype CountryCode = CountryCode(alpha2: string)
  datatype ChannelRef = ChannelRef(id: string)

  /** An amount in cents of a currency. */
  datatype Money = Money(centAmount: nat, currency: string)

  datatype PriceDraft = PriceDraft(
    value: Money,
    country: Option<CountryCode>,
    customerGroupId: Option<string>,
    channel: Option<ChannelRef>)

  /** An image by URL with its width and height. */
  datatype Image = Image(url: string, width: nat, height: nat)

  /** One translation of a localized string. */
  datatype LocalizedEntry = LocalizedEntry(locale: string, value: string)

  /** The value an attribute draft carries. */
  datatype AttributeValue =
    | TextValue(text: string)
    | LocalizedValue(entries: seq<LocalizedEntry>)
    | StringSetValue(elements: set<string>)

  datatype AttributeDraft = AttributeDraft(name: string, value: AttributeValue)

  /** A variant: its SKU, its prices and images (`None` when the column gave none)
      and its attributes. */
  datatype ProductVariantDraft = ProductVariantDraft(
    sku: Option<string>,
    prices: Option<seq<PriceDraft>>,
    attributes: seq<AttributeDraft>,
    images: Option<seq<Image>>)

  /** A product draft: the id of its product type, its name and slug, and its
      variants, the first of which is the master variant. */
  datatype ProductDraft = ProductDraft(
    productType: string,
    name: map<string, string>,
    slug: map<string, string>,
    variants: seq<ProductVariantDraft>)

  /** What the processor looks up: product types by name, customer group ids by
      name, channels by key, countries by ISO code, and the currency codes that
      `MoneyImpl` accepts. An absent key is a `null` answer. */
  datatype Resources = Resources(
    productTypes: map<string, ProductType>,
    customerGroupIds: map<string, string>,
    channels: map<string, ChannelRef>,
    countries: map<string, CountryCode>,
    currencies: set<string>)

  /** The exceptions that escape the processor. */
  datatype ProcessError =
    | ProductLineNotBound
    | CannotParsePrice(token: string)
    | CentAmountOutOfRange(token: string)
    | UnknownCurrency(currency: string)
    | UnsupportedAttributeType(attribute: string)
    | UnsupportedSetElementType(attribute: string)
    | MissingSetColumn(attribute: string)

  /** A map lookup that answers `null` for an absent key. */
  function Lookup<K, V>(m: map<K, V>, k: K): (r: Option<V>)
    ensures r.Some? <==> k in m
    ensures r.Some? ==> r.value == m[k]
  {
    if k in m then Some(m[k]) else None
  }
}
