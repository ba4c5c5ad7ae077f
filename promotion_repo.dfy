/** The `promotions` collection (app/data/repositories/promotion.go). */
module PromotionRepo {

  import opened Base
  import opened Entities
  import opened Listing

  const ACTIVE := "ACTIVE"

  /** The table-type part of the active-promotions filter for a non-empty
      table type: the stored list contains it, or the list is absent, null
      or empty. */
  predicate OffersTableType(types: Option<seq<string>>, tableType: string) {
    match types
    case None => true
    case Some(ts) => tableType in ts || ts == []
  }

  /** The whole filter of `GetActivePromotions`: status `ACTIVE`, `now`
      inside the inclusive date window, and the table type when one is
      given. */
  predicate IsOffered(p: Promotion, now: real, tableType: string) {
    p.Status == ACTIVE && p.StartDate <= now && now <= p.EndDate
    && (tableType != "" ==> OffersTableType(p.TableTypes, tableType))
  }

  function OfferedFor(now: real, tableType: string): Promotion -> bool {
    (p: Promotion) => IsOffered(p, now, tableType)
  }

  /** Without a table type only the status and the dates decide. */
  lemma NoTableTypeMeansNoRestriction(p: Promotion, now: real)
    ensures IsOffered(p, now, "") <==> p.Status == ACTIVE && p.StartDate <= now <= p.EndDate
  {
  }

  /** A promotion that names no table types is offered for every table type
      exactly when it is offered at all. */
  lemma UnrestrictedPromotionFitsEveryTable(p: Promotion, now: real, tableType: string)
    requires p.TableTypes == None || p.TableTypes == Some([])
    ensures IsOffered(p, now, tableType) <==> IsOffered(p, now, "")
  {
  }

  /** A promotion restricted to some table types is offered for a table type
      exactly when it is offered at all and names that type. */
  lemma RestrictedPromotionFitsItsTables(p: Promotion, now: real, tableType: string, ts: seq<string>)
    requires p.TableTypes == Some(ts) && ts != [] && tableType != ""
    ensures IsOffered(p, now, tableType) <==> IsOffered(p, now, "") && tableType in ts
  {
  }

  /** Naming a table type only ever narrows the result. */
  lemma TableTypeNarrows(p: Promotion, now: real, tableType: string)
    ensures IsOffered(p, now, tableType) ==> IsOffered(p, now, "")
  {
  }

  /** `UpdatePromotionById`'s `$set`: every descriptive field, the type and
      the status are written; the id and creation stamp are kept. */
  function OverwritePromotion(stored: Promotion, p: Promotion, now: real): (r: Promotion)
    ensures r.Id == stored.Id && r.CreatedBy == stored.CreatedBy && r.CreatedDate == stored.CreatedDate
    ensures r == p.(Id := stored.Id, CreatedBy := stored.CreatedBy, CreatedDate := stored.CreatedDate, UpdatedDate := now)
  {
    stored.(Name := p.Name, Description := p.Description, Type := p.Type,
            PlayHours := p.PlayHours, FreeHours := p.FreeHours,
            DiscountPct := p.DiscountPct, DiscountAmt := p.DiscountAmt,
            TableTypes := p.TableTypes, StartDate := p.StartDate, EndDate := p.EndDate,
            Status := p.Status, UpdatedBy := p.UpdatedBy, UpdatedDate := now)
  }

  /** Newest created first: the `createdDate: -1` sort. */
  function NewestCreatedFirst(): (Promotion, Promotion) -> bool {
    ByReal((p: Promotion) => p.CreatedDate, false)
  }

  class PromotionRepository {
    var promotions: map<Id, Promotion>
    /** The id the next insert receives. */
    var nextId: Id

    ghost predicate Valid()
      reads this
    {
      nextId >= 1 && forall k | k in promotions :: promotions[k].Id == k && 1 <= k < nextId
    }

    constructor()
      ensures Valid() && promotions == map[]
    {
      promotions := map[];
      nextId := 1;
    }

    /** `GetPromotionById`: the stored promotion, or not found. */
    function GetPromotionById(id: Id): (r: Option<Promotion>)
      reads this
      ensures r.Some? <==> id in promotions
      ensures r.Some? ==> r.value == promotions[id]
    {
      if id in promotions then Some(promotions[id]) else None
    }

    /** `GetPromotions`: every promotion, newest created first. */
    method GetPromotions() returns (r: seq<Promotion>)
      requires Valid()
      ensures SortedBy(r, NewestCreatedFirst())
      ensures ListsExactly(r, promotions, (p: Promotion) => true)
    {
      ByRealIsTotalPreorder((p: Promotion) => p.CreatedDate, false);
      r := SelectSorted(promotions, (p: Promotion) => true, NewestCreatedFirst());
    }

    /** `GetActivePromotions`: the promotions offered at `now` for the table
        type, in no particular order. */
    method GetActivePromotions(now: real, tableType: string) returns (r: seq<Promotion>)
      requires Valid()
      ensures ListsExactly(r, promotions, OfferedFor(now, tableType))
    {
      AnyOrderIsTotalPreorder<Promotion>();
      r := SelectSorted(promotions, OfferedFor(now, tableType), AnyOrder());
    }

    /** `CreatePromotion`: a fresh id, both dates set to now, the rest as
        given. A failed insert stores nothing. */
    method CreatePromotion(p: Promotion, now: real, fault: Option<string>) returns (created: Promotion, err: Option<string>)
      requires Valid()
      modifies this
      ensures Valid() && err == fault
      ensures created == p.(Id := old(nextId), CreatedDate := now, UpdatedDate := now)
      ensures created.Id !in old(promotions)
      ensures fault.None? ==> promotions == old(promotions)[created.Id := created]
      ensures fault.Some? ==> promotions == old(promotions)
    {
      created := p.(Id := nextId, CreatedDate := now, UpdatedDate := now);
      err := fault;
      if fault.None? {
        promotions := promotions[created.Id := created];
      }
      nextId := nextId + 1;
    }

    /** `UpdatePromotionById`: rewrites the promotion with that id; an id
        that matches nothing changes nothing. */
    method UpdatePromotionById(id: Id, p: Promotion, now: real, fault: Option<string>) returns (err: Option<string>)
      requires Valid()
      modifies this
      ensures Valid() && nextId == old(nextId) && err == fault
      ensures fault.None? && id in old(promotions) ==>
                promotions == old(promotions)[id := OverwritePromotion(old(promotions)[id], p, now)]
      ensures fault.Some? || id !in old(promotions) ==> promotions == old(promotions)
    {
      err := fault;
      if fault.None? && id in promotions {
        promotions := promotions[id := OverwritePromotion(promotions[id], p, now)];
      }
    }

    /** `DeletePromotionById`: removes the promotion with that id only. */
    method DeletePromotionById(id: Id, fault: Option<string>) returns (err: Option<string>)
      requires Valid()
      modifies this
      ensures Valid() && nextId == old(nextId) && err == fault
      ensures fault.None? ==> promotions == old(promotions) - {id}
      ensures fault.Some? ==> promotions == old(promotions)
    {
      err := fault;
      if fault.None? {
        promotions := promotions - {id};
      }
    }
  }
}
