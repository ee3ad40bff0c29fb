/** A reader's policy: the accounts it allows; one it does not name is denied (internal/accountprivacy/privacy.go). */
module Sharing {
  type Policy = map<string, bool>

  predicate Allows(p: Policy, id: string) { id in p && p[id] }
}
