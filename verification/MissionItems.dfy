/** Wire items and the degree scale of MISSION_ITEM_INT (src/contracts/microservices.ts,
    src/geo/mission/convert.ts). */
module MissionItems {
  import opened Numbers

  datatype Params = Params(p1: Float, p2: Float, p3: Float, p4: Float)

  datatype MissionItem = MissionItem(
    seqNo: int,
    frame: int,
    command: int,
    current: int,
    autocontinue: int,
    params: Params,
    x: int,
    y: int,
    z: Float)

  const LATLON_SCALE := 10000000.0

  function DegToScaled(deg: real): int { Round(deg * LATLON_SCALE) }

  function ScaledToDeg(scaled: int): real { scaled as real / LATLON_SCALE }

  /** A coordinate the wire can hold. */
  predicate OnGrid(deg: real) { ScaledToDeg(DegToScaled(deg)) == deg }

  /** The wire holds a coordinate exactly when it is a whole number of steps. */
  lemma GridIsWhole(deg: real)
    ensures OnGrid(deg) <==> (deg * 10000000.0).Floor as real == deg * 10000000.0
    ensures (deg * 10000000.0).Floor as real == deg * 10000000.0 ==> DegToScaled(deg) as real == deg * 10000000.0
  {
  }

  /** Reading a wire coordinate and writing it again changes nothing. */
  lemma ScaledRoundTrip(scaled: int)
    ensures DegToScaled(ScaledToDeg(scaled)) == scaled && OnGrid(ScaledToDeg(scaled))
  {
    RoundInt(scaled);
    assert ScaledToDeg(scaled) * LATLON_SCALE == scaled as real;
  }
}
