/** The subscription tiers of a tenant. */
module Tiers {
  datatype Tier = Free | Starter | Pro | Enterprise
}
