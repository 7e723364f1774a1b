/** The client's store as the thunks use it: what the selectors read (the current user and
    project, the documents waiting to upload), the actions dispatched into it so far, and
    the upload steps put on the timer queue. */
module ClientStore {
  import opened Wrappers
  import opened Envelope
  import JsObject

  class Store {
    var currentUser: Option<Ref>
    var currentProject: Option<Ref>
    /** The documents waiting to upload, by document id. */
    var uploads: JsObject.Object<Opaque>
    /** Every action dispatched, oldest first. */
    var dispatched: seq<Opaque>
    /** `processUploadBatch(batchLabel, batchId)` calls waiting on `setTimeout`, oldest first. */
    var timers: seq<(string, Option<string>)>

    ghost predicate Valid()
      reads this
    {
      JsObject.DistinctKeys(uploads)
    }

    constructor (currentUser: Option<Ref>, currentProject: Option<Ref>, uploads: JsObject.Object<Opaque>)
      requires JsObject.DistinctKeys(uploads)
      ensures Valid()
      ensures this.currentUser == currentUser && this.currentProject == currentProject
      ensures this.uploads == uploads && dispatched == [] && timers == []
    {
      this.currentUser := currentUser;
      this.currentProject := currentProject;
      this.uploads := uploads;
      dispatched := [];
      timers := [];
    }

    method Dispatch(action: Opaque)
      modifies this`dispatched
      ensures dispatched == old(dispatched) + [action]
    {
      dispatched := dispatched + [action];
    }

    method Schedule(batchLabel: string, batchId: Option<string>)
      modifies this`timers
      ensures timers == old(timers) + [(batchLabel, batchId)]
    {
      timers := timers + [(batchLabel, batchId)];
    }
  }
}
