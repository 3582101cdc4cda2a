/** Units of measure and their conversion. */
module Units {

  datatype UnitType = WEIGHT | VOLUME | COUNT | LENGTH | TEMPERATURE | TIME

  datatype Unit =
    | MILLIGRAM | GRAM | KILOGRAM | TON | OUNCE | POUND
    | MILLILITER | LITER | TEASPOON | TABLESPOON | FLUID_OUNCE | CUP | PINT | QUART | GALLON
    | UNIT | PIECE | DOZEN | CASE | BOX | BAG | BOTTLE | CAN | JAR
    | MILLIMETER | CENTIMETER | METER | INCH | FOOT
    | CELSIUS | FAHRENHEIT
    | MINUTE | HOUR | DAY

  function TypeOf(u: Unit): UnitType {
    match u
    case MILLIGRAM | GRAM | KILOGRAM | TON | OUNCE | POUND => WEIGHT
    case MILLILITER | LITER | TEASPOON | TABLESPOON | FLUID_OUNCE | CUP | PINT | QUART | GALLON => VOLUME
    case UNIT | PIECE | DOZEN | CASE | BOX | BAG | BOTTLE | CAN | JAR => COUNT
    case MILLIMETER | CENTIMETER | METER | INCH | FOOT => LENGTH
    case CELSIUS | FAHRENHEIT => TEMPERATURE
    case MINUTE | HOUR | DAY => TIME
  }

  /** How many base units one unit is. */
  function ToBase(u: Unit): (factor: real)
    ensures factor > 0.0
  {
    match u
    case MILLIGRAM => 0.001
    case GRAM => 1.0
    case KILOGRAM => 1000.0
    case TON => 1000000.0
    case OUNCE => 28.3495
    case POUND => 453.592
    case MILLILITER => 1.0
    case LITER => 1000.0
    case TEASPOON => 4.92892
    case TABLESPOON => 14.7868
    case FLUID_OUNCE => 29.5735
    case CUP => 236.588
    case PINT => 473.176
    case QUART => 946.353
    case GALLON => 3785.41
    case UNIT | PIECE | BOX | BAG | BOTTLE | CAN | JAR => 1.0
    case DOZEN => 12.0
    case CASE => 24.0
    case MILLIMETER => 0.001
    case CENTIMETER => 0.01
    case METER => 1.0
    case INCH => 0.0254
    case FOOT => 0.3048
    case CELSIUS | FAHRENHEIT => 1.0
    case MINUTE => 1.0
    case HOUR => 60.0
    case DAY => 1440.0
  }

  predicate AreCompatible(from: Unit, to: Unit) {
    TypeOf(from) == TypeOf(to)
  }

  /** To the base unit, and on to the other. */
  function Rescale(quantity: real, from: real, to: real): real
    requires to > 0.0
  {
    quantity * from / to
  }

  /** Conversion through the base unit; temperatures have their own formulas.  Incompatible units are refused. */
  function Convert(quantity: real, from: Unit, to: Unit): real
    requires AreCompatible(from, to)
  {
    if from == to then quantity
    else if from == CELSIUS then quantity * 9.0 / 5.0 + 32.0
    else if from == FAHRENHEIT then (quantity - 32.0) * 5.0 / 9.0
    else Rescale(quantity, ToBase(from), ToBase(to))
  }

  predicate IsScale(u: Unit) {
    u == CELSIUS || u == FAHRENHEIT
  }

  lemma RescaleMultiplies(q: real, f: real, g: real)
    requires f > 0.0 && g > 0.0
    ensures f / g > 0.0
    ensures Rescale(q, f, g) == q * (f / g)
    ensures Rescale(q, f, g) > 0.0 <==> q > 0.0
    ensures Rescale(q, f, g) == 0.0 <==> q == 0.0
  {
    assert q * f / g == q * (f / g);
  }

  /** Except between temperature scales, conversion keeps the sign. */
  lemma ConvertSign(quantity: real, from: Unit, to: Unit)
    requires AreCompatible(from, to) && (from == to || !IsScale(to))
    ensures Convert(quantity, from, to) > 0.0 <==> quantity > 0.0
    ensures Convert(quantity, from, to) == 0.0 <==> quantity == 0.0
  {
    RescaleMultiplies(quantity, ToBase(from), ToBase(to));
  }

  lemma RescaleComposes(q: real, f: real, g: real, h: real)
    requires f > 0.0 && g > 0.0 && h > 0.0
    ensures Rescale(Rescale(q, f, g), g, h) == Rescale(q, f, h)
    ensures Rescale(q, f, f) == q
  {
  }

  lemma ScalesCompose(q: real, from: Unit, through: Unit, to: Unit)
    requires IsScale(from) && IsScale(through) && IsScale(to)
    ensures Convert(Convert(q, from, through), through, to) == Convert(q, from, to)
  {
  }

  /** Conversion composes: the way does not matter, and going back undoes it. */
  lemma ConvertComposes(quantity: real, from: Unit, through: Unit, to: Unit)
    requires AreCompatible(from, through) && AreCompatible(through, to)
    ensures Convert(Convert(quantity, from, through), through, to) == Convert(quantity, from, to)
  {
    if IsScale(from) {
      ScalesCompose(quantity, from, through, to);
    } else {
      RescaleComposes(quantity, ToBase(from), ToBase(through), ToBase(to));
    }
  }

  // ----- The catalogue, unit by unit -----

  predicate IsListed(u: Unit, kind: UnitType) {
    match kind
    case WEIGHT => u == MILLIGRAM || u == GRAM || u == KILOGRAM || u == TON || u == OUNCE || u == POUND
    case VOLUME =>
      || u == MILLILITER || u == LITER || u == TEASPOON || u == TABLESPOON || u == FLUID_OUNCE
      || u == CUP || u == PINT || u == QUART || u == GALLON
    case COUNT => u == UNIT || u == PIECE || u == DOZEN || u == CASE || u == BOX || u == BAG || u == BOTTLE || u == CAN || u == JAR
    case LENGTH => u == MILLIMETER || u == CENTIMETER || u == METER || u == INCH || u == FOOT
    case TEMPERATURE => u == CELSIUS || u == FAHRENHEIT
    case TIME => u == MINUTE || u == HOUR || u == DAY
  }

  lemma ListedHasType(u: Unit, kind: UnitType)
    requires IsListed(u, kind)
    ensures TypeOf(u) == kind
  {
  }

  lemma TypeIsListed(u: Unit)
    ensures IsListed(u, TypeOf(u))
  {
  }

  /** Units convert into those of their own kind, and into no other. */
  lemma CompatibleIff(u: Unit, v: Unit, uKind: UnitType, vKind: UnitType)
    requires IsListed(u, uKind) && IsListed(v, vKind)
    ensures AreCompatible(u, v) <==> uKind == vKind
  {
    ListedHasType(u, uKind);
    ListedHasType(v, vKind);
  }

  lemma WeightsInGrams(q: real)
    ensures Convert(q, KILOGRAM, GRAM) == 1000.0 * q && Convert(q, TON, GRAM) == 1000000.0 * q && 1000.0 * Convert(q, MILLIGRAM, GRAM) == q
    ensures Convert(q, OUNCE, GRAM) == 28.3495 * q && Convert(q, POUND, GRAM) == 453.592 * q
  {
  }

  lemma VolumesInMilliliters(q: real)
    ensures Convert(q, LITER, MILLILITER) == 1000.0 * q && Convert(q, TEASPOON, MILLILITER) == 4.92892 * q
    ensures Convert(q, TABLESPOON, MILLILITER) == 14.7868 * q && Convert(q, FLUID_OUNCE, MILLILITER) == 29.5735 * q
    ensures Convert(q, CUP, MILLILITER) == 236.588 * q && Convert(q, PINT, MILLILITER) == 473.176 * q
    ensures Convert(q, QUART, MILLILITER) == 946.353 * q && Convert(q, GALLON, MILLILITER) == 3785.41 * q
  {
  }

  lemma CountsInUnits(q: real, u: Unit)
    requires TypeOf(u) == COUNT
    ensures Convert(q, u, UNIT) == if u == DOZEN then 12.0 * q else if u == CASE then 24.0 * q else q
  {
  }

  lemma LengthsInMeters(q: real)
    ensures 1000.0 * Convert(q, MILLIMETER, METER) == q && 100.0 * Convert(q, CENTIMETER, METER) == q
    ensures Convert(q, INCH, METER) == 0.0254 * q && Convert(q, FOOT, METER) == 0.3048 * q
  {
  }

  lemma TimesInMinutes(q: real)
    ensures Convert(q, HOUR, MINUTE) == 60.0 * q && Convert(q, DAY, MINUTE) == 1440.0 * q
  {
  }

  lemma ScalesOfTemperature(q: real)
    ensures 5.0 * Convert(q, CELSIUS, FAHRENHEIT) == 9.0 * q + 160.0
    ensures 9.0 * Convert(q, FAHRENHEIT, CELSIUS) == 5.0 * q - 160.0
  {
  }
}
