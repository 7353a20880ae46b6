/**
 * `/redeem-reward`: a user spends points on one of five fixed rewards. The
 * request is checked for both fields, the user's `point` is read, the reward's
 * cost is looked up in a fixed table, and when the user has enough the cost is
 * deducted with one `UPDATE`.
 */
module Rewards {
  import opened Wrappers

  /** The fixed cost table of the `switch` on `reward_id`; None for any other id. */
  function RewardCost(rewardId: string): (cost: Option<nat>)
    ensures cost.Some? <==> rewardId in {"R001", "R002", "R003", "R004", "R005"}
    ensures cost.Some? ==> 10 <= cost.value <= 25
  {
    match rewardId
    case "R001" => Some(15)
    case "R002" => Some(15)
    case "R003" => Some(10)
    case "R004" => Some(20)
    case "R005" => Some(25)
    case _ => None
  }

  /** A field of the request body as the JSON or urlencoded body parser leaves it:
      missing (or null), a number, or a text. The urlencoded parser only ever gives
      texts. */
  datatype Field = Absent | Number(n: int) | Text(s: string)

  /** JavaScript truthiness of a field: `0` and `""` are falsy, the text "0" is not. */
  predicate Truthy(f: Field) {
    match f
    case Absent => false
    case Number(n) => n != 0
    case Text(s) => s != ""
  }

  datatype RedeemRequest = RedeemRequest(userId: Field, rewardId: Field)

  /** `user_id && reward_id` are both truthy. */
  predicate Present(req: RedeemRequest) {
    Truthy(req.userId) && Truthy(req.rewardId)
  }

  /** The `user_id` key the `WHERE user_id = $1` clause compares with. A number is
      itself; a text goes through the database's conversion to the integer column
      type, `cast`, whose None is the query throwing on malformed input. */
  function UserKey(f: Field, cast: string -> Option<int>): Option<int> {
    match f
    case Absent => None
    case Number(n) => Some(n)
    case Text(s) => cast(s)
  }

  /** The `switch` compares with `===`, so only a text can match a case. */
  function FieldCost(f: Field): (cost: Option<nat>)
    ensures cost.Some? <==> f.Text? && RewardCost(f.s).Some?
  {
    if f.Text? then RewardCost(f.s) else None
  }

  /** The error responses, in the order the handler can produce them: 400 for a
      missing field, 404 for an unknown user, 400 for an unknown reward, 400 for
      too few points, 500 when a query throws. */
  datatype RedeemError = MissingField | UserNotFound | InvalidReward | InsufficientPoints | ServerError

  datatype RedeemOutcome = Redeemed(newPoint: int) | Rejected(error: RedeemError)

  /** What the handler answers, given the `point` column of every user, the
      database's text-to-integer conversion and whether the `SELECT` or the
      `UPDATE` throws. */
  function RedeemResult(points: map<int, int>, req: RedeemRequest, cast: string -> Option<int>,
                        lookupFails: bool, updateFails: bool): RedeemOutcome
  {
    if !Present(req) then Rejected(MissingField)
    else if lookupFails then Rejected(ServerError)
    else match UserKey(req.userId, cast)
      case None => Rejected(ServerError)
      case Some(uid) =>
        if uid !in points then Rejected(UserNotFound)
        else match FieldCost(req.rewardId)
          case None => Rejected(InvalidReward)
          case Some(cost) =>
            var userPoint := points[uid];
            if userPoint < cost then Rejected(InsufficientPoints)
            else if updateFails then Rejected(ServerError)
            else Redeemed(userPoint - cost)
  }

  /** A redemption succeeds exactly when both fields are truthy, the user's key is
      well formed and exists, the reward is in the table, the user has at least its
      cost and both queries succeed; the new balance is the old one less exactly the
      cost, never negative. */
  lemma RedeemDeductsCost(points: map<int, int>, req: RedeemRequest, cast: string -> Option<int>,
                          lookupFails: bool, updateFails: bool)
    ensures var r := RedeemResult(points, req, cast, lookupFails, updateFails);
            var key := UserKey(req.userId, cast);
            r.Redeemed? <==>
              Present(req) && !lookupFails && !updateFails && key.Some? && key.value in points
              && FieldCost(req.rewardId).Some?
              && points[key.value] >= FieldCost(req.rewardId).value
    ensures var r := RedeemResult(points, req, cast, lookupFails, updateFails);
            var key := UserKey(req.userId, cast);
            r.Redeemed? ==>
              r.newPoint == points[key.value] - FieldCost(req.rewardId).value
              && r.newPoint >= 0
  {
  }

  /** Each rejection names the first check that fails, in the handler's order. */
  lemma RejectionReasons(points: map<int, int>, req: RedeemRequest, cast: string -> Option<int>,
                         lookupFails: bool, updateFails: bool)
    ensures var r := RedeemResult(points, req, cast, lookupFails, updateFails);
            var key := UserKey(req.userId, cast);
            (r == Rejected(MissingField) <==> !Present(req))
            && (r == Rejected(UserNotFound) <==>
                  Present(req) && !lookupFails && key.Some? && key.value !in points)
            && (r == Rejected(InvalidReward) <==>
                  Present(req) && !lookupFails && key.Some? && key.value in points
                  && FieldCost(req.rewardId).None?)
            && (r == Rejected(InsufficientPoints) <==>
                  Present(req) && !lookupFails && key.Some? && key.value in points
                  && FieldCost(req.rewardId).Some?
                  && points[key.value] < FieldCost(req.rewardId).value)
            && (r == Rejected(ServerError) <==>
                  Present(req) && (lookupFails || key.None? ||
                    (key.value in points && FieldCost(req.rewardId).Some?
                     && points[key.value] >= FieldCost(req.rewardId).value && updateFails)))
  {
  }

  /** Truthiness is JavaScript's: a numeric `user_id` of 0 is a missing field, but
      the text "0" (all the urlencoded parser can give) is looked up, and a user
      that does not exist gets 404. A numeric `reward_id` never matches the table. */
  lemma ZeroUserId(points: map<int, int>, cast: string -> Option<int>)
    requires cast("0") == Some(0) && 0 !in points
    ensures RedeemResult(points, RedeemRequest(Number(0), Text("R001")), cast, false, false)
            == Rejected(MissingField)
    ensures RedeemResult(points, RedeemRequest(Text("0"), Text("R001")), cast, false, false)
            == Rejected(UserNotFound)
    ensures 7 in points ==>
            RedeemResult(points, RedeemRequest(Number(7), Number(1)), cast, false, false)
            == Rejected(InvalidReward)
  {
  }

  /** The table itself: R001 and R002 cost 15, R003 10, R004 20, R005 25. */
  lemma CostTable()
    ensures RewardCost("R001") == Some(15) && RewardCost("R002") == Some(15)
    ensures RewardCost("R003") == Some(10) && RewardCost("R004") == Some(20)
    ensures RewardCost("R005") == Some(25)
  {
  }

  /** The `point` column of the `users` table. */
  class PointLedger {
    var points: map<int, int>

    constructor(points: map<int, int>)
      ensures this.points == points
    {
      this.points := points;
    }

    /** The handler: only a successful redemption writes, and it writes the
        requesting user's balance, lowering it, and nothing else. */
    method Redeem(req: RedeemRequest, cast: string -> Option<int>, lookupFails: bool, updateFails: bool)
      returns (r: RedeemOutcome)
      modifies this
      ensures r == RedeemResult(old(points), req, cast, lookupFails, updateFails)
      ensures r.Redeemed? ==>
        var uid := UserKey(req.userId, cast).value;
        points == old(points)[uid := r.newPoint]
        && points[uid] < old(points)[uid]
        && points.Keys == old(points).Keys
        && forall u :: u in points && u != uid ==> points[u] == old(points)[u]
      ensures r.Rejected? ==> points == old(points)
    {
      if !Present(req) {
        return Rejected(MissingField);
      }
      if lookupFails {
        return Rejected(ServerError);
      }
      var key := UserKey(req.userId, cast);
      if key.None? {
        return Rejected(ServerError);
      }
      var userId := key.value;
      if userId !in points {
        return Rejected(UserNotFound);
      }
      var userPoint := points[userId];
      var requiredPoint := 0;
      match FieldCost(req.rewardId) {
        case None =>
          return Rejected(InvalidReward);
        case Some(cost) =>
          requiredPoint := cost;
      }
      if userPoint < requiredPoint {
        return Rejected(InsufficientPoints);
      }
      var newPoint := userPoint - requiredPoint;
      if updateFails {
        return Rejected(ServerError);
      }
      points := points[userId := newPoint];
      return Redeemed(newPoint);
    }
  }

  /** A redemption strictly lowers the requester's balance: every reward costs at
      least 10 points. */
  lemma RedeemLowersBalance(points: map<int, int>, req: RedeemRequest, cast: string -> Option<int>,
                            lookupFails: bool, updateFails: bool)
    requires RedeemResult(points, req, cast, lookupFails, updateFails).Redeemed?
    ensures var r := RedeemResult(points, req, cast, lookupFails, updateFails);
            r.newPoint <= points[UserKey(req.userId, cast).value] - 10
  {
    RedeemDeductsCost(points, req, cast, lookupFails, updateFails);
  }
}
