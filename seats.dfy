/** `User.getSeats`: the room's seat-settings page, already split by the seat
    pattern into (seat id, seat number) matches in page order, folded into a
    dictionary from seat number to seat id. */
module Seats {

  /** One `<div … grid_cell … data-key="ID"> … <em>NO</em>` match: the seat id
      (for instance "12,34") and the printed seat number (for instance "80"). */
  datatype SeatMatch = SeatMatch(seatId: string, seatNo: string)

  /** `seats[no] = id` applied to the matches in order: every seat number
      present, each bound to the id of its last match. */
  function SeatMapOf(ms: seq<SeatMatch>): (r: map<string, string>)
    ensures r.Keys == set i | 0 <= i < |ms| :: ms[i].seatNo
    ensures forall i :: 0 <= i < |ms| && (forall j :: i < j < |ms| ==> ms[j].seatNo != ms[i].seatNo) ==>
      r[ms[i].seatNo] == ms[i].seatId
  {
    if ms == [] then map[]
    else
      var init := ms[..|ms| - 1];
      assert forall i :: 0 <= i < |init| ==> init[i] == ms[i];
      SeatMapOf(init)[ms[|ms| - 1].seatNo := ms[|ms| - 1].seatId]
  }

  /** Folding one more match in is one more `seats[no] = id`. */
  lemma SeatMapOfPrefix(ms: seq<SeatMatch>, i: nat)
    requires i < |ms|
    ensures SeatMapOf(ms[..i + 1]) == SeatMapOf(ms[..i])[ms[i].seatNo := ms[i].seatId]
  {
    assert ms[..i + 1][..i] == ms[..i];
  }

  /** The loop of `getSeats`. */
  method GetSeats(ms: seq<SeatMatch>) returns (seats: map<string, string>)
    ensures seats == SeatMapOf(ms)
  {
    seats := map[];
    var i := 0;
    while i < |ms|
      invariant 0 <= i <= |ms|
      invariant seats == SeatMapOf(ms[..i])
    {
      SeatMapOfPrefix(ms, i);
      seats := seats[ms[i].seatNo := ms[i].seatId];
      i := i + 1;
    }
    assert ms[..i] == ms;
  }

  /** A later match for a seat number overwrites an earlier one. */
  lemma LaterDuplicateWins(ms: seq<SeatMatch>, id1: string, id2: string, no: string)
    ensures SeatMapOf(ms + [SeatMatch(id1, no), SeatMatch(id2, no)])[no] == id2
  {
  }
}
